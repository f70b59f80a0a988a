/**
 * The lifetime of cached extractions and attachment chunk slices: a cached row lives
 * while an occurrence uses its payload and module, a message's slice of a payload while
 * an occurrence of the message carries it.
 */
module ExtractionCache {
  import opened Wrappers

  type OccurrenceId = string
  type Claimant = string
  type Payload = string
  type ChunkId = string

  datatype Attachment = Attachment(claimant: Claimant, payload: Payload, extractor: string)

  datatype CacheKey = CacheKey(payload: Payload, extractor: string)
  datatype SliceKey = SliceKey(claimant: Claimant, payload: Payload)

  /** A cached result, whole. */
  type Extraction = string

  predicate Uses(attachments: map<OccurrenceId, Attachment>, key: CacheKey) {
    exists id ::
        id in attachments && attachments[id].payload == key.payload && attachments[id].extractor == key.extractor
  }

  predicate Carries(attachments: map<OccurrenceId, Attachment>, key: SliceKey) {
    exists id :: id in attachments && attachments[id].payload == key.payload && attachments[id].claimant == key.claimant
  }

  function StillUsed(extractions: map<CacheKey, Extraction>,
                     attachments: map<OccurrenceId, Attachment>): map<CacheKey, Extraction> {
    map key | key in extractions && Uses(attachments, key) :: extractions[key]
  }

  function StillCarried(slices: map<SliceKey, set<ChunkId>>,
                        attachments: map<OccurrenceId, Attachment>): map<SliceKey, set<ChunkId>> {
    map key | key in slices && Carries(attachments, key) :: slices[key]
  }

  /** What a prepared attachment writes. */
  datatype Plan = Plan(
    occurrence: OccurrenceId,
    payload: Payload,
    extractor: string,
    persist: Option<Extraction>,
    cachedRow: Option<Extraction>,
    deferred: bool,
    markUnchanged: bool,
    resolvedEarlier: bool,
    succeeded: bool,
    chunks: set<ChunkId>,
    clearsStaleChunks: bool,
    deletesMissingChunks: bool)
  {
    function Key(): CacheKey {
      CacheKey(payload, extractor)
    }

    /** The plan writes its occurrence and has a result for the cache. */
    predicate HasResult() {
      !markUnchanged && !resolvedEarlier && !deferred && (persist.Some? || cachedRow.Some?)
    }
  }

  /** The cache after a plan's result: stored, or put back where a row is absent. */
  function WithResult(extractions: map<CacheKey, Extraction>, plan: Plan,
                      purged: map<CacheKey, Extraction>): map<CacheKey, Extraction> {
    var key := plan.Key();
    if plan.deferred then extractions
    else if plan.persist.Some? then extractions[key := plan.persist.value]
    else if key in extractions then extractions
    else if plan.cachedRow.Some? then extractions[key := plan.cachedRow.value]
    else if key in purged then extractions[key := purged[key]]
    else extractions
  }

  /** The slice becomes the plan's chunks, or grows by them; without usable text it is cleared or left. */
  function SliceWritten(slices: map<SliceKey, set<ChunkId>>, plan: Plan, key: SliceKey): map<SliceKey, set<ChunkId>> {
    if plan.chunks == {} || !plan.succeeded then (if plan.clearsStaleChunks then slices - {key} else slices)
    else slices[key := plan.chunks + if plan.deletesMissingChunks || key !in slices then {} else slices[key]]
  }

  // ----- the operations --------------------------------------------------------------------------------

  datatype Tables = Tables(attachments: map<OccurrenceId, Attachment>, extractions: map<CacheKey, Extraction>,
                           slices: map<SliceKey, set<ChunkId>>, purged: map<CacheKey, Extraction>)

  datatype Operation =
    | Upsert(id: OccurrenceId, c: Claimant, payload: Payload, extractor: string)
    | Apply(plan: Plan, c: Claimant)
    | Delete(c: Claimant, ids: seq<OccurrenceId>)
    | Remove(c: Claimant)

  /** The occurrence's id is derived from its message and payload. */
  predicate IdFits(attachments: map<OccurrenceId, Attachment>, id: OccurrenceId, c: Claimant, payload: Payload) {
    id in attachments ==> attachments[id].claimant == c && attachments[id].payload == payload
  }

  /** A plan that skips its occurrence's write found the row stored. */
  predicate Fits(attachments: map<OccurrenceId, Attachment>, plan: Plan, c: Claimant) {
    && IdFits(attachments, plan.occurrence, c, plan.payload)
    && (plan.resolvedEarlier && !plan.markUnchanged ==> Carries(attachments, SliceKey(c, plan.payload)))
  }

  predicate Admitted(t: Tables, op: Operation) {
    match op
    case Upsert(id, c, payload, _) => IdFits(t.attachments, id, c, payload)
    case Apply(plan, c) => Fits(t.attachments, plan, c)
    case _ => true
  }

  /** The rows that went, and, where they did not, those remembered before. */
  function Remembered(purged: map<CacheKey, Extraction>, was: map<CacheKey, Extraction>,
                      left: map<CacheKey, Extraction>)
    : map<CacheKey, Extraction>
  {
    map key | key in purged.Keys + (was.Keys - left.Keys) ::
      if key in was && key !in left then was[key] else purged[key]
  }

  /** The tables with these occurrences, and only the cached rows and slices that they use. */
  function Trimmed(t: Tables, attachments: map<OccurrenceId, Attachment>): Tables {
    t.(attachments := attachments, extractions := StillUsed(t.extractions, attachments),
       slices := StillCarried(t.slices, attachments))
  }

  /** What an operation leaves; one whose ids do not fit leaves everything. */
  function Next(t: Tables, op: Operation): Tables {
    if !Admitted(t, op) then t
    else match op
      case Upsert(id, c, payload, extractor) =>
        var attachments := t.attachments[id := Attachment(c, payload, extractor)];
        t.(attachments := attachments, extractions := StillUsed(t.extractions, attachments))
      case Apply(plan, c) =>
        if plan.markUnchanged then t
        else
          var written := if plan.resolvedEarlier then t else Written(t, plan, c);
          if plan.deferred then written
          else written.(slices := SliceWritten(t.slices, plan, SliceKey(c, plan.payload)))
      case Delete(c, ids) =>
        var left := map id | id in t.attachments && !(id in ids && t.attachments[id].claimant == c) ::
                t.attachments[id];
        var trimmed := Trimmed(t, left);
        trimmed.(purged := Remembered(t.purged, t.extractions, trimmed.extractions))
      case Remove(c) => Trimmed(t, map id | id in t.attachments && t.attachments[id].claimant != c :: t.attachments[id])
  }

  /** A plan's occurrence, and the cache as used then with the plan's result. */
  function Written(t: Tables, plan: Plan, c: Claimant): Tables {
    var attachments := t.attachments[plan.occurrence := Attachment(c, plan.payload, plan.extractor)];
    t.(attachments := attachments, extractions := WithResult(StillUsed(t.extractions, attachments), plan, t.purged))
  }

  /** Nothing is cached that no occurrence uses, and no slice is kept that none carries. */
  ghost predicate Ok(t: Tables) {
    && (forall key | key in t.extractions :: Uses(t.attachments, key))
    && (forall key | key in t.slices :: Carries(t.attachments, key))
  }

  lemma NextKeeps(t: Tables, op: Operation)
    requires Ok(t)
    ensures Ok(Next(t, op))
  {
    hide Remembered;
    if Admitted(t, op) && op.Upsert? {
      CarriersStay(t.attachments, Next(t, op).attachments, op.id);
    } else if Admitted(t, op) && op.Apply? && !op.plan.markUnchanged && !op.plan.resolvedEarlier {
      var attachments := Written(t, op.plan, op.c).attachments;
      CarriersStay(t.attachments, attachments, op.plan.occurrence);
      UsesOwn(attachments, op.plan.occurrence);
      assert attachments[op.plan.occurrence].claimant == op.c;
      assert Carries(attachments, SliceKey(op.c, op.plan.payload));
    }
  }

  // ----- what an operation leaves, row by row ----------------------------------------------------------

  /** Of the cached rows but `own`, those with an occurrence of their payload and module are left, unchanged. */
  ghost predicate UsedRowsStay(before: map<CacheKey, Extraction>, after: map<CacheKey, Extraction>,
                               attachments: map<OccurrenceId, Attachment>, own: Option<CacheKey>) {
    forall key | own != Some(key) ::
      && (key in after <==> key in before && exists id :: id in attachments && KeyOf(attachments[id]) == key)
      && (key in after ==> after[key] == before[key])
  }

  /** Of the slices but `own`, those with an occurrence of their message and payload are left, unchanged. */
  ghost predicate CarriedSlicesStay(before: map<SliceKey, set<ChunkId>>, after: map<SliceKey, set<ChunkId>>,
                                    attachments: map<OccurrenceId, Attachment>, own: Option<SliceKey>) {
    forall key | own != Some(key) ::
      && (key in after <==>
            key in before && exists id :: id in attachments && SliceOf(attachments[id]) == key)
      && (key in after ==> after[key] == before[key])
  }

  function SliceOf(a: Attachment): SliceKey {
    SliceKey(a.claimant, a.payload)
  }

  /** The plan's result is what is cached for it: a new one replaces, an old one is only put back. */
  ghost predicate ResultStored(t: Tables, plan: Plan, after: map<CacheKey, Extraction>) {
    var key := CacheKey(plan.payload, plan.extractor);
    if plan.persist.Some? then key in after && after[key] == plan.persist.value
    else if key in t.extractions then key in after && after[key] == t.extractions[key]
    else if plan.cachedRow.Some? then key in after && after[key] == plan.cachedRow.value
    else if key in t.purged then key in after && after[key] == t.purged[key]
    else key !in after
  }

  /** The chunks of the plan's slice: the plan's, beside those stored unless it deletes them; or none. */
  ghost predicate ChunksStored(before: map<SliceKey, set<ChunkId>>, plan: Plan, key: SliceKey,
                               after: map<SliceKey, set<ChunkId>>) {
    if plan.succeeded && plan.chunks != {} then
      && key in after
      && forall chunk :: chunk in after[key] <==>
           chunk in plan.chunks || (!plan.deletesMissingChunks && key in before && chunk in before[key])
    else
      (key in after <==> key in before && !plan.clearsStaleChunks) && (key in after ==> after[key] == before[key])
  }

  /** What applying a plan leaves: its occurrence, its result and its chunks, each unless the plan skips it. */
  lemma PlanIsStored(t: Tables, plan: Plan, c: Claimant)
    requires Ok(t) && Fits(t.attachments, plan, c)
    ensures var n, key := Next(t, Apply(plan, c)), SliceKey(c, plan.payload);
      && n.purged == t.purged
      && (plan.markUnchanged ==> n == t)
      && (plan.markUnchanged || plan.resolvedEarlier ==>
              n.attachments == t.attachments && n.extractions == t.extractions)
      && (!plan.markUnchanged && !plan.resolvedEarlier ==>
            && n.attachments == t.attachments[plan.occurrence := Attachment(c, plan.payload, plan.extractor)]
            && UsedRowsStay(t.extractions, n.extractions, n.attachments,
                            if plan.deferred then None else Some(plan.Key()))
            && (!plan.deferred ==> ResultStored(t, plan, n.extractions)))
      && (plan.markUnchanged || plan.deferred ==> n.slices == t.slices)
      && (!plan.markUnchanged && !plan.deferred ==>
            && CarriedSlicesStay(t.slices, n.slices, n.attachments, Some(key))
            && ChunksStored(t.slices, plan, key, n.slices))
  {
    hide Uses, Carries, Ok, UsedRowsStay, CarriedSlicesStay, WithResult, SliceWritten, ResultStored, ChunksStored;
    hide StillUsed;
    if !plan.markUnchanged && !plan.resolvedEarlier {
      RowsStored(t, plan, c);
    }
    if !plan.markUnchanged && !plan.deferred {
      SlicesStored(t, plan, c);
    }
  }

  lemma RowsStored(t: Tables, plan: Plan, c: Claimant)
    requires Ok(t)
    ensures var n := Written(t, plan, c);
      && UsedRowsStay(t.extractions, n.extractions, n.attachments, if plan.deferred then None else Some(plan.Key()))
      && (!plan.deferred ==> ResultStored(t, plan, n.extractions))
  {
    hide Uses, Carries;
    var n := Written(t, plan, c);
    SameUses(n.attachments);
    AllUseOwn(n.attachments);
    assert KeyOf(n.attachments[plan.occurrence]) == plan.Key();
  }

  lemma SlicesStored(t: Tables, plan: Plan, c: Claimant)
    requires Ok(t) && Fits(t.attachments, plan, c) && !plan.markUnchanged && !plan.deferred
    ensures var n, key := Next(t, Apply(plan, c)), SliceKey(c, plan.payload);
      CarriedSlicesStay(t.slices, n.slices, n.attachments, Some(key)) && ChunksStored(t.slices, plan, key, n.slices)
  {
    hide Uses, Carries, WithResult, StillUsed;
    var n := Next(t, Apply(plan, c));
    SameUses(n.attachments);
    if !plan.resolvedEarlier {
      CarriersStay(t.attachments, n.attachments, plan.occurrence);
    }
  }

  lemma SameUses(attachments: map<OccurrenceId, Attachment>)
    ensures forall key :: Uses(attachments, key) <==> exists id :: id in attachments && KeyOf(attachments[id]) == key
    ensures forall key :: Carries(attachments, key) <==>
                          exists id :: id in attachments && SliceOf(attachments[id]) == key
  {
    forall key ensures Uses(attachments, key) <==> exists id :: id in attachments && KeyOf(attachments[id]) == key {
      if Uses(attachments, key) {
        var id :| id in attachments && attachments[id].payload == key.payload
                  && attachments[id].extractor == key.extractor;
        assert KeyOf(attachments[id]) == key;
      }
    }
    forall key ensures Carries(attachments, key) <==> exists id ::
        id in attachments && SliceOf(attachments[id]) == key {
      if Carries(attachments, key) {
        var id :| id in attachments && attachments[id].payload == key.payload
                  && attachments[id].claimant == key.claimant;
        assert SliceOf(attachments[id]) == key;
      }
    }
  }

  /** What the other operations leave: their occurrences, and just the rows and slices these use. */
  lemma OccurrencesDecide(t: Tables, op: Operation)
    requires Ok(t) && Admitted(t, op) && !op.Apply?
    ensures var n := Next(t, op);
      && UsedRowsStay(t.extractions, n.extractions, n.attachments, None)
      && CarriedSlicesStay(t.slices, n.slices, n.attachments, None)
      && match op
         case Upsert(id, c, payload, extractor) =>
           n.attachments == t.attachments[id := Attachment(c, payload, extractor)] && n.purged == t.purged
         case Delete(c, ids) =>
           && (forall id :: id in n.attachments <==>
                 id in t.attachments && !(id in ids && t.attachments[id].claimant == c))
           && (forall id | id in n.attachments :: n.attachments[id] == t.attachments[id])
           && (forall key | key in t.extractions && key !in n.extractions ::
                 key in n.purged && n.purged[key] == t.extractions[key])
           && (forall key | key !in t.extractions || key in n.extractions ::
                 (key in n.purged <==> key in t.purged) && (key in n.purged ==> n.purged[key] == t.purged[key]))
         case Remove(c) =>
           && (forall id :: id in n.attachments <==> id in t.attachments && t.attachments[id].claimant != c)
           && (forall id | id in n.attachments :: n.attachments[id] == t.attachments[id])
           && n.purged == t.purged
  {
    hide Uses, Carries;
    var n := Next(t, op);
    SameUses(n.attachments);
    SameUses(t.attachments);
    if op.Upsert? {
      CarriersStay(t.attachments, n.attachments, op.id);
    }
  }

  /** A row purged with its last occurrence is put back for a later one that has no result of its own. */
  lemma PurgedIsPutBack(t: Tables, c: Claimant, ids: seq<OccurrenceId>, plan: Plan, d: Claimant)
    requires Ok(t) && plan.Key() in t.extractions
    requires var n := Next(t, Delete(c, ids)); plan.Key() !in n.extractions && Fits(n.attachments, plan, d)
    requires !plan.markUnchanged && !plan.resolvedEarlier && !plan.deferred
    requires plan.persist.None? && plan.cachedRow.None?
    ensures var n := Next(Next(t, Delete(c, ids)), Apply(plan, d));
      plan.Key() in n.extractions && n.extractions[plan.Key()] == t.extractions[plan.Key()]
  {
    hide Next, Ok, Fits, UsedRowsStay, CarriedSlicesStay, ChunksStored;
    NextKeeps(t, Delete(c, ids));
    OccurrencesDecide(t, Delete(c, ids));
    PlanIsStored(Next(t, Delete(c, ids)), plan, d);
  }

  /** The tables after a run. */
  function After(start: Tables, operations: seq<Operation>): Tables {
    if operations == [] then start
    else Next(After(start, operations[..|operations|-1]), operations[|operations|-1])
  }

  /** A run is its operations, one after another, each on what the earlier ones left. */
  lemma RunIsItsSteps(start: Tables, operations: seq<Operation>, i: nat)
    requires i < |operations|
    ensures After(start, operations[..0]) == start
    ensures After(start, operations[..i+1]) == Next(After(start, operations[..i]), operations[i])
  {
    hide Next;
    assert operations[..i+1][..i] == operations[..i];
  }

  /** And a commit's run is its plans and then the deletion. */
  lemma CommitIsItsPlans(c: Claimant, plans: seq<Plan>, stale: seq<OccurrenceId>)
    ensures var operations := Committing(c, plans, stale);
      && |operations| == |plans| + 1 && operations[|plans|] == Delete(c, stale)
      && forall i | 0 <= i < |plans| :: operations[i] == Apply(plans[i], c)
  {
  }

  const EMPTY := Tables(map[], map[], map[], map[])

  /** After every run a cached row has an occurrence that uses it, and a slice one that carries it. */
  lemma {:induction false} RunKeeps(operations: seq<Operation>)
    ensures Ok(After(EMPTY, operations))
  {
    hide Next;
    if operations != [] {
      RunKeeps(operations[..|operations|-1]);
      NextKeeps(After(EMPTY, operations[..|operations|-1]), operations[|operations|-1]);
    }
  }

  /** A message's commit: its plans in order, and then the occurrences it no longer produces. */
  function Committing(c: Claimant, plans: seq<Plan>, stale: seq<OccurrenceId>): seq<Operation> {
    seq(|plans|, i requires 0 <= i < |plans| => Apply(plans[i], c)) + [Delete(c, stale)]
  }

  class CacheStore {
    var attachments: map<OccurrenceId, Attachment>
    var extractions: map<CacheKey, Extraction>
    /** The chunk rows of each slice; a slice without rows is absent. */
    var slices: map<SliceKey, set<ChunkId>>
    /** Rows the current batch purged, for a later message to put back. */
    var purged: map<CacheKey, Extraction>

    constructor ()
      ensures Valid() && State() == EMPTY
    {
      attachments, extractions, slices, purged := map[], map[], map[], map[];
    }

    ghost predicate Valid()
      reads this
    {
      Ok(State())
    }

    function State(): Tables
      reads this
    {
      Tables(attachments, extractions, slices, purged)
    }

    /** The purge of one payload: its cached rows that no occurrence uses. */
    method PurgeOrphans(payload: Payload)
      modifies this`extractions
      ensures extractions ==
                map key | key in old(extractions) && !(key.payload == payload && !Uses(attachments, key)) ::
                  old(extractions)[key]
    {
      extractions := map key | key in extractions && !(key.payload == payload && !Uses(attachments, key)) ::
              extractions[key];
    }

    /** `upsert_attachment`: a changed module may leave the old module's row unused. */
    method UpsertAttachment(id: OccurrenceId, c: Claimant, payload: Payload, extractor: string) returns (inserted: bool)
      requires Valid() && IdFits(attachments, id, c, payload)
      modifies this`attachments, this`extractions
      ensures State() == Next(old(State()), Upsert(id, c, payload, extractor)) && Valid()
      ensures inserted == (id !in old(attachments))
    {
      NextKeeps(State(), Upsert(id, c, payload, extractor));
      if id in attachments {
        inserted := false;
        if attachments[id].extractor != extractor {
          attachments := attachments[id := attachments[id].(extractor := extractor)];
          UsersOfOthers(old(attachments), attachments, id);
          PurgeOrphans(payload);
        } else {
          assert attachments == attachments[id := Attachment(c, payload, extractor)];
        }
      } else {
        inserted := true;
        attachments := attachments[id := Attachment(c, payload, extractor)];
        UsersOfOthers(old(attachments), attachments, id);
      }
    }

    /** `_write_occurrence`: the occurrence first, then its result, stored or put back. */
    method WriteOccurrence(plan: Plan, c: Claimant)
      requires Valid() && IdFits(attachments, plan.occurrence, c, plan.payload)
      modifies this`attachments, this`extractions
      ensures Valid() && State() == Written(old(State()), plan, c)
    {
      var _ := UpsertAttachment(plan.occurrence, c, plan.payload, plan.extractor);
      assert attachments[plan.occurrence] == Attachment(c, plan.payload, plan.extractor);
      assert Uses(attachments, plan.Key());
      if plan.deferred {
        return;
      }
      if plan.persist.Some? {
        extractions := extractions[plan.Key() := plan.persist.value];
      } else if plan.cachedRow.Some? {
        Restore(plan.Key(), plan.cachedRow.value);
      } else if plan.Key() in purged {
        Restore(plan.Key(), purged[plan.Key()]);
      }
    }

    /** `restore_attachment_extraction`: only an absent row. */
    method Restore(key: CacheKey, row: Extraction)
      requires Valid() && Uses(attachments, key)
      modifies this`extractions
      ensures Valid() && extractions == if key in old(extractions) then old(extractions)
                                        else old(extractions)[key := row]
    {
      if key !in extractions {
        extractions := extractions[key := row];
      }
    }

    /** `_write_slice`: the plan's chunks, beside or instead of the stored ones, or none. */
    method WriteSlice(plan: Plan, c: Claimant)
      requires Valid() && Carries(attachments, SliceKey(c, plan.payload))
      modifies this`slices
      ensures Valid()
      ensures slices == SliceWritten(old(slices), plan, SliceKey(c, plan.payload))
    {
      var key := SliceKey(c, plan.payload);
      if plan.chunks == {} || !plan.succeeded {
        if plan.clearsStaleChunks {
          slices := slices - {key};
        }
        return;
      }
      var kept := if plan.deletesMissingChunks || key !in slices then {} else slices[key];
      slices := slices[key := plan.chunks + kept];
    }

    /** `apply_attachment_writes`. */
    method ApplyWrites(plan: Plan, c: Claimant)
      requires Valid() && Fits(attachments, plan, c)
      modifies this`attachments, this`extractions, this`slices
      ensures State() == Next(old(State()), Apply(plan, c)) && Valid()
      ensures plan.HasResult() ==> plan.Key() in extractions
      ensures forall key | key in old(extractions) && Uses(attachments, key) :: key in extractions
    {
      if plan.markUnchanged {
        return;
      }
      if !plan.resolvedEarlier {
        WriteOccurrence(plan, c);
        assert attachments[plan.occurrence].claimant == c;
        assert Carries(attachments, SliceKey(c, plan.payload));
      }
      if plan.deferred {
        return;
      }
      WriteSlice(plan, c);
    }

    /**
     * `delete_attachment_occurrences`: after it exactly the cached rows and slices that a
     * remaining occurrence uses are left, and what went from the cache is remembered.
     */
    method DeleteOccurrences(c: Claimant, ids: seq<OccurrenceId>)
      requires Valid()
      modifies this
      ensures State() == Next(old(State()), Delete(c, ids)) && Valid()
      ensures extractions == StillUsed(old(extractions), attachments)
    {
      var payloads: set<Payload> := {};
      for i := 0 to |ids|
        invariant attachments ==
                  map id | id in old(attachments) && !(id in ids[..i] && old(attachments)[id].claimant == c) ::
                    old(attachments)[id]
        invariant payloads == set id | id in old(attachments) && id in ids[..i] && old(attachments)[id].claimant == c ::
                old(attachments)[id].payload
        invariant extractions == old(extractions) && slices == old(slices) && purged == old(purged)
      {
        assert ids[..i+1] == ids[..i] + [ids[i]];
        if ids[i] in attachments && attachments[ids[i]].claimant == c {
          payloads := payloads + {attachments[ids[i]].payload};
          attachments := attachments - {ids[i]};
        }
      }
      assert ids[..|ids|] == ids;
      PurgePayloads(c, payloads, old(attachments));
    }

    /** The second half: for each payload that lost an occurrence, its slice and its orphaned rows. */
    method PurgePayloads(c: Claimant, payloads: set<Payload>, ghost before: map<OccurrenceId, Attachment>)
      requires forall key | key in extractions :: Uses(before, key)
      requires forall key | key in slices :: Carries(before, key)
      requires forall id | id in attachments :: id in before && before[id] == attachments[id]
      requires forall id | id in before && id !in attachments ::
          before[id].claimant == c && before[id].payload in payloads
      modifies this`extractions, this`slices, this`purged
      ensures extractions == StillUsed(old(extractions), attachments)
      ensures slices == StillCarried(old(slices), attachments)
      ensures purged == Remembered(old(purged), old(extractions), extractions)
    {
      hide Uses, Carries;
      var rest := payloads;
      ghost var done: set<Payload> := {};
      RowsLeftNone(extractions, slices, attachments, c);
      while rest != {}
        invariant done + rest == payloads && done !! rest
        invariant extractions == RowsLeft(old(extractions), attachments, done)
        invariant slices == SlicesLeft(old(slices), attachments, done, c)
        invariant purged == Remembered(old(purged), old(extractions), extractions)
        decreases rest
      {
        var payload :| payload in rest;
        PurgePayload(c, payload);
        RowsLeftMore(old(extractions), old(slices), attachments, done, payload, c);
        RememberMore(old(extractions), old(purged), attachments, done, payload);
        rest, done := rest - {payload}, done + {payload};
      }
      assert done == payloads;
      StillUsedElsewhere(before, attachments, old(extractions).Keys, payloads);
      StillCarriedElsewhere(before, attachments, old(slices).Keys, payloads, c);
      assert extractions == StillUsed(old(extractions), attachments) by {
        RowsLeftAll(old(extractions), old(slices), attachments, payloads, c);
      }
      assert slices == StillCarried(old(slices), attachments) by {
        RowsLeftAll(old(extractions), old(slices), attachments, payloads, c);
      }
    }

    /** One payload: its slice unless still carried, and its unused cached rows, which are remembered. */
    method PurgePayload(c: Claimant, payload: Payload)
      modifies this`extractions, this`slices, this`purged
      ensures extractions == RowsLeft(old(extractions), attachments, {payload})
      ensures slices == SlicesLeft(old(slices), attachments, {payload}, c)
      ensures purged == Remembered(old(purged), old(extractions), extractions)
    {
      hide Uses, Carries;
      if !Carries(attachments, SliceKey(c, payload)) {
        slices := slices - {SliceKey(c, payload)};
      }
      RememberOrphans(payload);
    }

    /** Each cached row of the payload that the purge takes is put with the purged ones. */
    method RememberOrphans(payload: Payload)
      modifies this`extractions, this`purged
      ensures extractions == RowsLeft(old(extractions), attachments, {payload})
      ensures purged == Remembered(old(purged), old(extractions), extractions)
    {
      hide Uses;
      var orphans := map key | key in extractions && key.payload == payload && !Uses(attachments, key) ::
              extractions[key];
      purged := purged + orphans;
      PurgeOrphans(payload);
    }

    /** A message goes: its occurrences, its slices, and the cached rows no other message's occurrence uses. */
    method RemoveMessage(c: Claimant)
      requires Valid()
      modifies this`attachments, this`extractions, this`slices
      ensures State() == Next(old(State()), Remove(c)) && Valid()
    {
      hide Uses, Carries, StillUsed, StillCarried, Next, Ok, RowsLeft, SlicesLeft;
      ghost var before := State();
      var payloads := set id | id in attachments && attachments[id].claimant == c :: attachments[id].payload;
      slices := map key | key in slices && key.claimant != c :: slices[key];
      attachments := map id | id in attachments && attachments[id].claimant != c :: attachments[id];
      ghost var remaining, carried := attachments, slices;
      var rest := payloads;
      ghost var done: set<Payload> := {};
      RowsLeftNone(extractions, slices, attachments, c);
      while rest != {}
        invariant done + rest == payloads && done !! rest && attachments == remaining && slices == carried
        invariant extractions == RowsLeft(old(extractions), attachments, done)
        decreases rest
      {
        var payload :| payload in rest;
        PurgeOrphans(payload);
        RowsLeftMore(old(extractions), old(slices), attachments, done, payload, c);
        rest, done := rest - {payload}, done + {payload};
      }
      assert done == payloads;
      RemovedIs(before, c, payloads, State());
    }

    // ----- one message's commit ---------------------------------------------------------------------

    /**
     * The attachment part of a message's commit: every plan's writes, then the occurrences its
     * parse no longer produces. Afterwards every planned result is cached for its occurrence.
     */
    method CommitMessage(c: Claimant, plans: seq<Plan>, stale: seq<OccurrenceId>)
      requires Valid()
      requires forall i | 0 <= i < |plans| :: Fits(attachments, plans[i], c)
      requires forall i, j | 0 <= i < j < |plans| :: plans[i].occurrence != plans[j].occurrence
      requires forall i | 0 <= i < |plans| :: plans[i].occurrence !in stale
      modifies this
      ensures Valid() && State() == After(old(State()), Committing(c, plans, stale))
      ensures forall i | 0 <= i < |plans| && plans[i].HasResult() :: plans[i].Key() in extractions
      ensures forall i | 0 <= i < |plans| && !plans[i].markUnchanged && !plans[i].resolvedEarlier ::
                plans[i].occurrence in attachments
                && attachments[plans[i].occurrence] == Attachment(c, plans[i].payload, plans[i].extractor)
      ensures forall id | id in old(attachments) && id in attachments
                          && (forall i | 0 <= i < |plans| :: plans[i].occurrence != id)
                          && KeyOf(old(attachments)[id]) in old(extractions) ::
                KeyOf(old(attachments)[id]) in extractions
    {
      hide Uses, Carries, Next, StillUsed, StillCarried, Ok, SliceWritten, WithResult, Remembered;
      ghost var operations := Committing(c, plans, stale);
      for i := 0 to |plans|
        invariant Valid() && purged == old(purged)
        invariant State() == After(old(State()), operations[..i])
        invariant forall j | i <= j < |plans| :: Fits(attachments, plans[j], c)
        invariant forall j | 0 <= j < i && Writes(plans[j]) ::
                    plans[j].occurrence in attachments
                    && attachments[plans[j].occurrence] == Attachment(c, plans[j].payload, plans[j].extractor)
        invariant forall j | 0 <= j < i && plans[j].HasResult() :: plans[j].Key() in extractions
        invariant forall id | id in old(attachments) && (forall k | 0 <= k < |plans| :: plans[k].occurrence != id) ::
                    id in attachments && attachments[id] == old(attachments)[id]
                    && (KeyOf(attachments[id]) in old(extractions) ==> KeyOf(attachments[id]) in extractions)
      {
        ghost var before := attachments;
        assert operations[..i+1][..i] == operations[..i];
        Applied(State(), plans[i], c);
        ApplyWrites(plans[i], c);
        forall j | i < j < |plans| ensures Fits(attachments, plans[j], c) {
          CarriersGrow(before, attachments, plans[i].occurrence, c, plans[j].payload, plans[i].payload);
        }
        forall j | 0 <= j <= i && plans[j].HasResult() ensures plans[j].Key() in extractions {
          UsesOwn(attachments, plans[j].occurrence);
        }
        AllUseOwn(attachments);
      }
      assert operations[..|operations|-1] == operations[..|plans|];
      Deleted(State(), c, stale);
      DeleteOccurrences(c, stale);
      AllUseOwn(attachments);
      forall j | 0 <= j < |plans| && plans[j].HasResult() ensures plans[j].Key() in extractions {
        UsesOwn(attachments, plans[j].occurrence);
      }
    }
  }

  lemma RemovedIs(t: Tables, c: Claimant, payloads: set<Payload>, n: Tables)
    requires Ok(t) && n.purged == t.purged
    requires payloads == set id | id in t.attachments && t.attachments[id].claimant == c :: t.attachments[id].payload
    requires n.slices == map key | key in t.slices && key.claimant != c :: t.slices[key]
    requires n.attachments == map id | id in t.attachments && t.attachments[id].claimant != c :: t.attachments[id]
    requires n.extractions == RowsLeft(t.extractions, n.attachments, payloads)
    ensures n == Next(t, Remove(c)) && Ok(n)
  {
    NextKeeps(t, Remove(c));
    OthersCarry(t.attachments, n.attachments, c);
    StillUsedElsewhere(t.attachments, n.attachments, t.extractions.Keys, payloads);
    RowsLeftAll(t.extractions, map[], n.attachments, payloads, c);
    hide Uses, Carries, RowsLeft, SliceWritten;
    assert n.slices == StillCarried(t.slices, n.attachments);
  }

  lemma Applied(t: Tables, plan: Plan, c: Claimant)
    requires Fits(t.attachments, plan, c)
    ensures var n := Next(t, Apply(plan, c));
      && n.purged == t.purged
      && n.attachments == if !Writes(plan) then t.attachments
                          else t.attachments[plan.occurrence := Attachment(c, plan.payload, plan.extractor)]
  {
  }

  lemma Deleted(t: Tables, c: Claimant, ids: seq<OccurrenceId>)
    ensures var n := Next(t, Delete(c, ids));
      && n.extractions == StillUsed(t.extractions, n.attachments)
      && (forall key :: key in n.extractions <==> key in t.extractions && Uses(n.attachments, key))
      && n.attachments == map id | id in t.attachments && !(id in ids && t.attachments[id].claimant == c) ::
              t.attachments[id]
  {
  }

  predicate Writes(plan: Plan) {
    !plan.markUnchanged && !plan.resolvedEarlier
  }

  function KeyOf(a: Attachment): CacheKey {
    CacheKey(a.payload, a.extractor)
  }

  lemma AllUseOwn(attachments: map<OccurrenceId, Attachment>)
    ensures forall id | id in attachments :: Uses(attachments, KeyOf(attachments[id]))
  {
  }

  /** The cached rows after the payloads `done` were purged. */
  function RowsLeft(extractions: map<CacheKey, Extraction>, attachments: map<OccurrenceId, Attachment>,
                    done: set<Payload>): map<CacheKey, Extraction> {
    map key | key in extractions && (key.payload in done ==> Uses(attachments, key)) :: extractions[key]
  }

  function SlicesLeft(slices: map<SliceKey, set<ChunkId>>, attachments: map<OccurrenceId, Attachment>,
                      done: set<Payload>, c: Claimant): map<SliceKey, set<ChunkId>> {
    map key | key in slices && (key.payload in done && key.claimant == c ==> Carries(attachments, key)) :: slices[key]
  }

  lemma RowsLeftNone(extractions: map<CacheKey, Extraction>, slices: map<SliceKey, set<ChunkId>>,
                     attachments: map<OccurrenceId, Attachment>, c: Claimant)
    ensures RowsLeft(extractions, attachments, {}) == extractions && SlicesLeft(slices, attachments, {}, c) == slices
  {
  }

  lemma RowsLeftMore(extractions: map<CacheKey, Extraction>, slices: map<SliceKey, set<ChunkId>>,
                     attachments: map<OccurrenceId, Attachment>,
                     done: set<Payload>, payload: Payload, c: Claimant)
    ensures RowsLeft(RowsLeft(extractions, attachments, done), attachments, {payload})
        == RowsLeft(extractions, attachments, done + {payload})
    ensures SlicesLeft(SlicesLeft(slices, attachments, done, c), attachments, {payload}, c)
        == SlicesLeft(slices, attachments, done + {payload}, c)
    ensures var left := RowsLeft(extractions, attachments, done);
            RowsLeft(extractions, attachments, done + {payload}) ==
            map key | key in left && !(key.payload == payload && !Uses(attachments, key)) :: left[key]
  {
    hide Uses, Carries;
  }

  lemma RememberMore(was: map<CacheKey, Extraction>, purged: map<CacheKey, Extraction>,
                     attachments: map<OccurrenceId, Attachment>, done: set<Payload>, payload: Payload)
    ensures var left, less := RowsLeft(was, attachments, done), RowsLeft(was, attachments, done + {payload});
      Remembered(Remembered(purged, was, left), left, less) == Remembered(purged, was, less)
  {
    hide Uses;
  }

  lemma RowsLeftAll(extractions: map<CacheKey, Extraction>, slices: map<SliceKey, set<ChunkId>>,
                    attachments: map<OccurrenceId, Attachment>,
                    payloads: set<Payload>, c: Claimant)
    ensures (forall key | key in extractions && key.payload !in payloads :: Uses(attachments, key)) ==>
              RowsLeft(extractions, attachments, payloads) == StillUsed(extractions, attachments)
    ensures (forall key | key in slices && (key.payload !in payloads || key.claimant != c) ::
                 Carries(attachments, key)) ==>
              SlicesLeft(slices, attachments, payloads, c) == StillCarried(slices, attachments)
  {
    hide Uses, Carries;
  }

  lemma UsesOwn(attachments: map<OccurrenceId, Attachment>, id: OccurrenceId)
    requires id in attachments
    ensures Uses(attachments, CacheKey(attachments[id].payload, attachments[id].extractor))
  {
  }

  lemma CarriersGrow(before: map<OccurrenceId, Attachment>, after: map<OccurrenceId, Attachment>, id: OccurrenceId,
                     c: Claimant, payload: Payload, own: Payload)
    requires after == before || (id in after && after == before[id := after[id]] && after[id].claimant == c
                                 && after[id].payload == own
                                 && (id in before ==> before[id].claimant == c && before[id].payload == own))
    ensures Carries(before, SliceKey(c, payload)) ==> Carries(after, SliceKey(c, payload))
  {
    if Carries(before, SliceKey(c, payload)) {
      var k :| k in before && before[k].payload == payload && before[k].claimant == c;
      assert k in after && after[k].payload == payload && after[k].claimant == c;
    }
  }

  /** Rewriting one occurrence leaves the users of keys of other payloads, and other users of its own. */
  lemma UsersOfOthers(before: map<OccurrenceId, Attachment>, after: map<OccurrenceId, Attachment>, id: OccurrenceId)
    requires id in after && after == before[id := after[id]]
    requires id in before ==> before[id].payload == after[id].payload
    ensures forall key | Uses(before, key) && key.payload != after[id].payload :: Uses(after, key)
    ensures id !in before ==> forall key | Uses(before, key) :: Uses(after, key)
  {
    forall key | Uses(before, key) && (key.payload != after[id].payload || id !in before) ensures Uses(after, key) {
      var k :| k in before && before[k].payload == key.payload && before[k].extractor == key.extractor;
      assert after[k] == before[k];
    }
  }

  lemma CarriersStay(before: map<OccurrenceId, Attachment>, after: map<OccurrenceId, Attachment>, id: OccurrenceId)
    requires id in after && after == before[id := after[id]]
    requires id in before ==> before[id].payload == after[id].payload && before[id].claimant == after[id].claimant
    ensures forall key | Carries(before, key) :: Carries(after, key)
  {
    forall key | Carries(before, key) ensures Carries(after, key) {
      var k :| k in before && before[k].payload == key.payload && before[k].claimant == key.claimant;
      assert after[k].payload == key.payload && after[k].claimant == key.claimant;
    }
  }

  lemma StillUsedElsewhere(before: map<OccurrenceId, Attachment>, after: map<OccurrenceId, Attachment>,
                           keys: set<CacheKey>, payloads: set<Payload>)
    requires forall key | key in keys :: Uses(before, key)
    requires forall id | id in before && id !in after :: before[id].payload in payloads
    requires forall id | id in after :: id in before && after[id] == before[id]
    ensures forall key | key in keys && key.payload !in payloads :: Uses(after, key)
  {
    forall key | key in keys && key.payload !in payloads ensures Uses(after, key) {
      var k :| k in before && before[k].payload == key.payload && before[k].extractor == key.extractor;
      assert k in after;
    }
  }

  lemma StillCarriedElsewhere(before: map<OccurrenceId, Attachment>, after: map<OccurrenceId, Attachment>,
                              keys: set<SliceKey>, payloads: set<Payload>, c: Claimant)
    requires forall key | key in keys :: Carries(before, key)
    requires forall id | id in before && id !in after :: before[id].payload in payloads && before[id].claimant == c
    requires forall id | id in after :: id in before && after[id] == before[id]
    ensures forall key | key in keys && (key.payload !in payloads || key.claimant != c) :: Carries(after, key)
  {
    forall key | key in keys && (key.payload !in payloads || key.claimant != c) ensures Carries(after, key) {
      var k :| k in before && before[k].payload == key.payload && before[k].claimant == key.claimant;
      assert k in after;
    }
  }

  lemma OthersCarry(before: map<OccurrenceId, Attachment>, after: map<OccurrenceId, Attachment>, c: Claimant)
    requires after == map id | id in before && before[id].claimant != c :: before[id]
    ensures forall key | Carries(before, key) :: Carries(after, key) <==> key.claimant != c
  {
    forall key | Carries(before, key) ensures Carries(after, key) <==> key.claimant != c {
      var k :| k in before && before[k].payload == key.payload && before[k].claimant == key.claimant;
      assert key.claimant != c ==> k in after && after[k] == before[k];
    }
  }

  /** The store, driven by a run. */
  method Run(operations: seq<Operation>) returns (store: CacheStore)
    ensures fresh(store) && store.Valid() && store.State() == After(EMPTY, operations)
  {
    hide Next, Ok;
    store := new CacheStore();
    for n := 0 to |operations|
      invariant fresh(store) && store.Valid() && store.State() == After(EMPTY, operations[..n])
    {
      assert operations[..n+1][..n] == operations[..n];
      NotAdmitted(store.State(), operations[n]);
      match operations[n]
      case Upsert(id, c, payload, extractor) =>
        if IdFits(store.attachments, id, c, payload) {
          var inserted := store.UpsertAttachment(id, c, payload, extractor);
        }
      case Apply(plan, c) =>
        if Fits(store.attachments, plan, c) { store.ApplyWrites(plan, c); }
      case Delete(c, ids) => store.DeleteOccurrences(c, ids);
      case Remove(c) => store.RemoveMessage(c);
    }
    assert operations[..|operations|] == operations;
  }

  lemma NotAdmitted(t: Tables, op: Operation)
    ensures !Admitted(t, op) ==> Next(t, op) == t
  {
  }
}
