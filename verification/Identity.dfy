/**
 * Provider-identity assessments: a cache of `Assess`, invalidated by the triggers of
 * every statement that changes the evidence it read, and reassessed in batches by a
 * keyset pass.
 */
module Identity {
  import opened Wrappers

  type Claimant = string
  type Version = string

  const RECOVERED_FOLDER := "Recovered Messages"
  const IDENTITY_HEADER := "x-pm-internal-id"
  const MAX_ID_LENGTH: nat := 256

  datatype Outcome = Accepted | Unresolved | Rejected

  datatype Reason = RecoveredMail | HeadersUnknown | HeadersIncomplete | NoIdentityHeader | DuplicateIdentityHeader
    | MalformedIdentity | NoAcceptanceRule

  datatype Evidence = Evidence(folder: string, complete: Option<bool>, count: nat, value: Option<string>)

  datatype Assessment = Assessment(outcome: Outcome, reason: Reason, candidate: Option<string>)

  /** One to 256 printable ASCII characters other than the blank. */
  predicate Canonical(id: string) {
    1 <= |id| <= MAX_ID_LENGTH && forall i | 0 <= i < |id| :: '!' <= id[i] <= '~'
  }

  /** `assess`. */
  function Assess(e: Evidence): Assessment {
    if e.folder == RECOVERED_FOLDER then Assessment(Rejected, RecoveredMail, None)
    else if e.complete.None? then Assessment(Unresolved, HeadersUnknown, None)
    else if !e.complete.value then Assessment(Unresolved, HeadersIncomplete, None)
    else if e.count == 0 then Assessment(Unresolved, NoIdentityHeader, None)
    else if e.count > 1 then Assessment(Unresolved, DuplicateIdentityHeader, None)
    else if e.value.None? || !Canonical(e.value.value) then Assessment(Unresolved, MalformedIdentity, None)
    else Assessment(Unresolved, NoAcceptanceRule, e.value)
  }

  /**
   * No evidence is accepted, and a candidate is kept exactly for the one canonical identity
   * of a whole capture outside the recovery folder; it is what the table's checks allow.
   */
  lemma AssessAcceptsNothing(e: Evidence)
    ensures !Assess(e).outcome.Accepted?
    ensures Assess(e).candidate.Some? <==>
            e.folder != RECOVERED_FOLDER && e.complete == Some(true) && e.count == 1 && e.value.Some?
            && Canonical(e.value.value)
    ensures Assess(e).candidate.Some? ==> Assess(e).reason == NoAcceptanceRule && Assess(e).candidate == e.value
    ensures Assess(e).outcome.Rejected? <==> e.folder == RECOVERED_FOLDER
  {
  }

  /** The reason tells what was found, each just where no earlier one applies. */
  lemma ReasonTells(e: Evidence)
    ensures var a, whole := Assess(e), e.folder != RECOVERED_FOLDER && e.complete == Some(true);
      && (a.reason == RecoveredMail <==> e.folder == RECOVERED_FOLDER)
      && (a.reason == HeadersUnknown <==> e.folder != RECOVERED_FOLDER && e.complete.None?)
      && (a.reason == HeadersIncomplete <==> e.folder != RECOVERED_FOLDER && e.complete == Some(false))
      && (a.reason == NoIdentityHeader <==> whole && e.count == 0)
      && (a.reason == DuplicateIdentityHeader <==> whole && e.count >= 2)
      && (a.reason == MalformedIdentity <==>
            whole && e.count == 1 && (e.value.None? || !(1 <= |e.value.value| <= 256 && Printable(e.value.value))))
      && (a.reason == NoAcceptanceRule <==> a.candidate.Some?)
  {
  }

  /** Every character is printable ASCII, and none is the blank. */
  predicate Printable(s: string) {
    forall i | 0 <= i < |s| :: 0x21 <= s[i] as int <= 0x7e
  }

  datatype Occurrence = Occurrence(claimant: Claimant, folder: string, active: bool)
  datatype Key = Key(claimant: Claimant, ordinal: nat)
  datatype Header = Header(name: string, raw: string)
  datatype Slot = Slot(occurrence: nat, version: Version)
  datatype Row = Row(assessment: Assessment, count: nat, complete: Option<bool>, current: bool)

  // ----- evidence -----------------------------------------------------------------------------

  predicate IsIdentity(headers: map<Key, Header>, k: Key) {
    k in headers && headers[k].name == IDENTITY_HEADER
  }

  function IdentityOrdinals(headers: map<Key, Header>, c: Claimant): set<nat> {
    set k | k in headers && k.claimant == c && IsIdentity(headers, k) :: k.ordinal
  }

  predicate IsLeast(s: set<nat>, n: nat) {
    n in s && forall m | m in s :: n <= m
  }

  /** The raw value of the first identity header, by ordinal. */
  ghost predicate IsFirstValue(headers: map<Key, Header>, c: Claimant, value: Option<string>) {
    var ordinals := IdentityOrdinals(headers, c);
    if ordinals == {} then value.None?
    else exists n :: IsLeast(ordinals, n) && Key(c, n) in headers && value == Some(headers[Key(c, n)].raw)
  }

  /** What the evidence query reads for an occurrence. */
  ghost predicate IsEvidence(occ: map<nat, Occurrence>, complete: map<Claimant, Option<bool>>,
                             headers: map<Key, Header>, id: nat, e: Evidence) {
    && id in occ && occ[id].claimant in complete
    && e.folder == occ[id].folder && e.complete == complete[occ[id].claimant]
    && e.count == |IdentityOrdinals(headers, occ[id].claimant)|
    && IsFirstValue(headers, occ[id].claimant, e.value)
  }

  lemma EvidenceIsUnique(occ: map<nat, Occurrence>, complete: map<Claimant, Option<bool>>, headers: map<Key, Header>,
                         id: nat, a: Evidence, b: Evidence)
    requires IsEvidence(occ, complete, headers, id, a) && IsEvidence(occ, complete, headers, id, b)
    ensures a == b
  {
    var ordinals := IdentityOrdinals(headers, occ[id].claimant);
    assert forall n, m | IsLeast(ordinals, n) && IsLeast(ordinals, m) :: n == m;
  }

  /** The evidence counts the message's identity header rows; its value is that of the one with the least ordinal. */
  lemma EvidenceIs(occ: map<nat, Occurrence>, complete: map<Claimant, Option<bool>>, headers: map<Key, Header>,
                   id: nat, e: Evidence) returns (ordinals: set<nat>)
    requires IsEvidence(occ, complete, headers, id, e)
    ensures forall n :: n in ordinals <==>
                        Key(occ[id].claimant, n) in headers && headers[Key(occ[id].claimant, n)].name == IDENTITY_HEADER
    ensures e.folder == occ[id].folder && e.complete == complete[occ[id].claimant] && e.count == |ordinals|
    ensures if e.count == 0 then e.value.None?
            else exists n :: n in ordinals && (forall m | m in ordinals :: n <= m)
                             && e.value == Some(headers[Key(occ[id].claimant, n)].raw)
  {
    ordinals := IdentityOrdinals(headers, occ[id].claimant);
    assert forall n :: n in ordinals <==>
                       Key(occ[id].claimant, n) in headers && headers[Key(occ[id].claimant, n)].name == IDENTITY_HEADER;
    if ordinals != {} {
      var n :| IsLeast(ordinals, n) && e.value == Some(headers[Key(occ[id].claimant, n)].raw);
      assert n in ordinals && forall m | m in ordinals :: n <= m;
    }
  }

  /** The same identity headers are the same evidence. */
  lemma SameHeadersSameEvidence(occ: map<nat, Occurrence>, complete: map<Claimant, Option<bool>>,
                                headers: map<Key, Header>,
                                headers': map<Key, Header>, id: nat, e: Evidence)
    requires IsEvidence(occ, complete, headers, id, e)
    requires forall k: Key | k.claimant == occ[id].claimant && (IsIdentity(headers, k) || IsIdentity(headers', k)) ::
               k in headers && k in headers' && headers[k] == headers'[k]
    ensures IsEvidence(occ, complete, headers', id, e)
  {
    assert IdentityOrdinals(headers, occ[id].claimant) == IdentityOrdinals(headers', occ[id].claimant);
  }

  // ----- the tables ------------------------------------------------------------------------------

  /** An assessment row is what `Assess` says of some evidence that was read for it. */
  predicate RowOf(row: Row, e: Evidence) {
    row.assessment == Assess(e) && row.count == e.count && row.complete == e.complete
  }

  ghost predicate RowAgrees(occ: map<nat, Occurrence>, complete: map<Claimant, Option<bool>>, headers: map<Key, Header>,
                            id: nat, row: Row) {
    && id in occ
    && !row.assessment.outcome.Accepted?
    && (row.current ==> occ[id].active && exists e :: IsEvidence(occ, complete, headers, id, e) && RowOf(row, e))
  }

  function Invalidated(rows: map<Slot, Row>, occ: map<nat, Occurrence>, cs: set<Claimant>): map<Slot, Row> {
    map s | s in rows :: if s.occurrence in occ && occ[s.occurrence].claimant in cs then rows[s].(current := false)
                         else rows[s]
  }

  datatype Pending = Pending(occurrence: nat, version: Version, evidence: Evidence)

  // ----- the statements, and the triggers that follow them ----------------------------------------

  datatype Tables = Tables(occ: map<nat, Occurrence>, complete: map<Claimant, Option<bool>>, headers: map<Key, Header>,
                           rows: map<Slot, Row>, selected: Version)

  datatype Operation =
    | Headers(k: Key, header: Option<Header>)
    | Completeness(c: Claimant, whole: Option<bool>)
    | Insert(id: nat, o: Occurrence)
    | Update(id: nat, folder: string, active: bool)
    | Delete(c: Claimant)
    | Policy(version: Version)
    | Store(p: Pending)

  /** What the tables' keys admit. */
  predicate Admitted(t: Tables, op: Operation) {
    match op
    case Insert(id, o) => id >= 1 && id !in t.occ && o.claimant in t.complete
    case Update(id, _, _) => id in t.occ
    case _ => true
  }

  /** The worker's policy and evidence are the present ones. */
  ghost predicate IsPresent(t: Tables, p: Pending) {
    && t.selected == p.version && p.occurrence in t.occ && t.occ[p.occurrence].active
    && IsEvidence(t.occ, t.complete, t.headers, p.occurrence, p.evidence)
  }

  function Outdated(rows: map<Slot, Row>, id: nat): map<Slot, Row> {
    map s | s in rows :: if s.occurrence == id then rows[s].(current := false) else rows[s]
  }

  /** What an operation leaves; one that is not admitted, and a stale worker's, leave everything. */
  ghost function Next(t: Tables, op: Operation): Tables {
    if !Admitted(t, op) then t
    else match op
      case Headers(k, header) =>
        var headers := if header.Some? then t.headers[k := header.value] else t.headers - {k};
        var touched := IsIdentity(t.headers, k) || IsIdentity(headers, k);
        t.(headers := headers, rows := if touched then Invalidated(t.rows, t.occ, {k.claimant}) else t.rows)
      case Completeness(c, whole) =>
        var changed := c in t.complete && t.complete[c] != whole;
        t.(complete := t.complete[c := whole], rows := if changed then Invalidated(t.rows, t.occ, {c}) else t.rows)
      case Insert(id, o) => t.(occ := t.occ[id := o])
      case Update(id, folder, active) =>
        var same := t.occ[id].folder == folder && t.occ[id].active == active;
        t.(occ := t.occ[id := t.occ[id].(folder := folder, active := active)],
           rows := if same then t.rows else Outdated(t.rows, id))
      case Delete(c) =>
        var occ := map id | id in t.occ && t.occ[id].claimant != c :: t.occ[id];
        Tables(occ, t.complete - {c}, map k | k in t.headers && k.claimant != c :: t.headers[k],
               map s | s in t.rows && s.occurrence in occ :: t.rows[s], t.selected)
      case Policy(version) => t.(selected := version)
      case Store(p) => if IsPresent(t, p) then t.(rows := t.rows[Slot(p.occurrence, p.version) := Assessed(p)]) else t
  }

  function Assessed(p: Pending): Row {
    Row(Assess(p.evidence), p.evidence.count, p.evidence.complete, true)
  }

  /** Every current assessment, of whatever version, is `Assess` of the present evidence, and none is accepted. */
  ghost predicate Ok(t: Tables) {
    && (forall id | id in t.occ :: id >= 1 && t.occ[id].claimant in t.complete)
    && forall s | s in t.rows :: RowAgrees(t.occ, t.complete, t.headers, s.occurrence, t.rows[s])
  }

  lemma NextKeeps(t: Tables, op: Operation)
    requires Ok(t)
    ensures Ok(Next(t, op))
  {
    hide IsEvidence, RowOf;
    if op.Store? {
      StoreKeeps(t, op.p);
    } else if Admitted(t, op) {
      var n := Next(t, op);
      forall s | s in n.rows ensures RowAgrees(n.occ, n.complete, n.headers, s.occurrence, n.rows[s]) {
        KeepsAgreeing(t.occ, t.complete, t.headers, n.occ, n.complete, n.headers, s.occurrence, t.rows[s], n.rows[s]);
      }
    }
  }

  lemma StoreKeeps(t: Tables, p: Pending)
    requires Ok(t)
    ensures Ok(Next(t, Store(p)))
  {
    hide IsEvidence;
    AssessAcceptsNothing(p.evidence);
  }

  /** The rows of these messages' occurrences, and no others, stop being current; nothing else in them changes. */
  ghost predicate StopBeingCurrent(before: map<Slot, Row>, after: map<Slot, Row>, stale: Slot -> bool) {
    && after.Keys == before.Keys
    && forall s | s in before :: after[s] == if stale(s) then before[s].(current := false) else before[s]
  }

  /**
   * What a statement leaves. A header statement outdates assessments exactly when the row is
   * an identity header before or after it, a completeness statement when it changes a
   * message's, an update when it changes folder or state; each outdates those of its own
   * message or occurrence only. A worker's assessment is stored exactly while its policy and
   * evidence are the present ones.
   */
  lemma StatementLeaves(t: Tables, op: Operation)
    requires match op
             case Insert(id, o) => id >= 1 && id !in t.occ && o.claimant in t.complete
             case Update(id, _, _) => id in t.occ
             case _ => true
    ensures var n := Next(t, op);
      match op
      case Headers(k, header) =>
        && n == t.(headers := n.headers, rows := n.rows)
        && (k in n.headers <==> header.Some?) && (header.Some? ==> n.headers[k] == header.value)
        && (forall l | l != k ::
                (l in n.headers <==> l in t.headers) && (l in n.headers ==> n.headers[l] == t.headers[l]))
        && var touched := (k in t.headers && t.headers[k].name == IDENTITY_HEADER)
                          || (header.Some? && header.value.name == IDENTITY_HEADER);
           StopBeingCurrent(t.rows, n.rows, (s: Slot) => touched && OfMessage(t, s, k.claimant))
      case Completeness(c, whole) =>
        && n == t.(complete := t.complete[c := whole], rows := n.rows)
        && var changed := c in t.complete && t.complete[c] != whole;
           StopBeingCurrent(t.rows, n.rows, (s: Slot) => changed && OfMessage(t, s, c))
      case Insert(id, o) => n == t.(occ := t.occ[id := o])
      case Update(id, folder, active) =>
        && n == t.(occ := t.occ[id := Occurrence(t.occ[id].claimant, folder, active)], rows := n.rows)
        && var changed := t.occ[id] != n.occ[id];
           StopBeingCurrent(t.rows, n.rows, (s: Slot) => changed && s.occurrence == id)
      case Delete(c) =>
        && n.selected == t.selected && n.complete == t.complete - {c}
        && (forall id :: id in n.occ <==> id in t.occ && t.occ[id].claimant != c)
        && (forall id | id in n.occ :: n.occ[id] == t.occ[id])
        && (forall k :: k in n.headers <==> k in t.headers && k.claimant != c)
        && (forall k | k in n.headers :: n.headers[k] == t.headers[k])
        && (forall s :: s in n.rows <==> s in t.rows && s.occurrence in n.occ)
        && (forall s | s in n.rows :: n.rows[s] == t.rows[s])
      case Policy(version) => n == t.(selected := version)
      case Store(p) =>
        if t.selected == p.version && p.occurrence in t.occ && t.occ[p.occurrence].active
           && IsEvidence(t.occ, t.complete, t.headers, p.occurrence, p.evidence)
        then
          n == t.(rows := t.rows[Slot(p.occurrence, p.version) :=
                                 Row(Assess(p.evidence), p.evidence.count, p.evidence.complete, true)])
        else n == t
  {
    hide IsEvidence, Assess;
  }

  /**
   * A current assessment that keeps a candidate keeps the value of the one identity header
   * of a message whose headers were captured whole, outside the recovery folder.
   */
  lemma CandidateIsTheHeader(t: Tables, s: Slot, v: string) returns (n: nat)
    requires Ok(t) && s in t.rows && t.rows[s].current && t.rows[s].assessment.candidate == Some(v)
    ensures s.occurrence in t.occ && t.occ[s.occurrence].active
    ensures var o := t.occ[s.occurrence];
      && o.folder != "Recovered Messages" && o.claimant in t.complete && t.complete[o.claimant] == Some(true)
      && Key(o.claimant, n) in t.headers && t.headers[Key(o.claimant, n)] == Header(IDENTITY_HEADER, v)
      && (forall m | Key(o.claimant, m) in t.headers && t.headers[Key(o.claimant, m)].name == IDENTITY_HEADER :: m == n)
      && 1 <= |v| <= 256 && Printable(v)
  {
    assert RowAgrees(t.occ, t.complete, t.headers, s.occurrence, t.rows[s]);
    var e :| IsEvidence(t.occ, t.complete, t.headers, s.occurrence, e) && RowOf(t.rows[s], e);
    AssessAcceptsNothing(e);
    ReasonTells(e);
    var ordinals := EvidenceIs(t.occ, t.complete, t.headers, s.occurrence, e);
    var c := t.occ[s.occurrence].claimant;
    n :| n in ordinals && e.value == Some(t.headers[Key(c, n)].raw);
    OneOf(ordinals, n);
  }

  lemma OneOf(s: set<nat>, n: nat)
    requires n in s && |s| == 1
    ensures forall m | m in s :: m == n
  {
    assert |s - {n}| == 0;
  }

  predicate OfMessage(t: Tables, s: Slot, c: Claimant) {
    s.occurrence in t.occ && t.occ[s.occurrence].claimant == c
  }

  function Empty(version: Version): Tables {
    Tables(map[], map[], map[], map[], version)
  }

  /** The tables after a run. */
  ghost function After(start: Tables, operations: seq<Operation>): Tables {
    if operations == [] then start
    else Next(After(start, operations[..|operations|-1]), operations[|operations|-1])
  }

  /** A run is its operations, one after another, each on what the earlier ones left. */
  lemma RunIsItsSteps(start: Tables, operations: seq<Operation>, i: nat)
    requires i < |operations|
    ensures After(start, operations[..0]) == start
    ensures After(start, operations[..i+1]) == Next(After(start, operations[..i]), operations[i])
  {
    hide Next;
    assert operations[..i+1][..i] == operations[..i];
  }

  /** After every run, every current assessment is that of the present evidence, and none is accepted. */
  lemma {:induction false} RunKeeps(version: Version, operations: seq<Operation>)
    ensures Ok(After(Empty(version), operations))
  {
    hide Next;
    if operations != [] {
      RunKeeps(version, operations[..|operations|-1]);
      NextKeeps(After(Empty(version), operations[..|operations|-1]), operations[|operations|-1]);
    }
  }

  lemma {:induction false} AfterBoth(start: Tables, first: seq<Operation>, second: seq<Operation>)
    ensures After(start, first + second) == After(After(start, first), second)
  {
    hide Next;
    if second == [] {
      assert first + second == first;
    } else {
      assert (first + second)[..|first + second|-1] == first + second[..|second|-1];
      AfterBoth(start, first, second[..|second|-1]);
    }
  }

  class IdentityStore {
    var occ: map<nat, Occurrence>
    var complete: map<Claimant, Option<bool>>
    var headers: map<Key, Header>
    var rows: map<Slot, Row>
    var selected: Version

    constructor (version: Version)
      ensures Valid() && State() == Empty(version)
    {
      occ, complete, headers, rows, selected := map[], map[], map[], map[], version;
    }

    ghost predicate Valid()
      reads this
    {
      Ok(State())
    }

    ghost function State(): Tables
      reads this
    {
      Tables(occ, complete, headers, rows, selected)
    }

    // ----- statements that change evidence, with their triggers -------------------------------

    /** Puts, replaces or (with `None`) deletes a header row. */
    method WriteHeader(k: Key, header: Option<Header>)
      requires Valid()
      modifies this`headers, this`rows
      ensures State() == Next(old(State()), Headers(k, header)) && Valid()
      ensures headers == if header.Some? then old(headers)[k := header.value] else old(headers) - {k}
      ensures rows == if IsIdentity(old(headers), k) || IsIdentity(headers, k)
          then Invalidated(old(rows), occ, {k.claimant}) else old(rows)
    {
      hide Ok;
      NextKeeps(State(), Headers(k, header));
      var wasIdentity := IsIdentity(headers, k);
      var isIdentity := header.Some? && header.value.name == IDENTITY_HEADER;
      headers := if header.Some? then headers[k := header.value] else headers - {k};
      if wasIdentity || isIdentity {
        rows := Invalidated(rows, occ, {k.claimant});
      }
    }

    /** `UPDATE messages SET headers_complete`, or a new message. */
    method WriteComplete(c: Claimant, whole: Option<bool>)
      requires Valid()
      modifies this`complete, this`rows
      ensures State() == Next(old(State()), Completeness(c, whole)) && Valid()
      ensures complete == old(complete)[c := whole]
      ensures rows == if c in old(complete) && old(complete)[c] != whole then Invalidated(old(rows), occ, {c})
                      else old(rows)
    {
      hide Ok;
      NextKeeps(State(), Completeness(c, whole));
      var changed := c in complete && complete[c] != whole;
      complete := complete[c := whole];
      if changed {
        rows := Invalidated(rows, occ, {c});
      }
    }

    /** A new occurrence; its id carries no assessment, since rows go with their occurrence. */
    method InsertOccurrence(id: nat, o: Occurrence)
      requires Valid() && id !in occ && id >= 1 && o.claimant in complete
      modifies this`occ
      ensures State() == Next(old(State()), Insert(id, o)) && Valid()
    {
      hide Ok;
      NextKeeps(State(), Insert(id, o));
      occ := occ[id := o];
    }

    /** `UPDATE message_occurrences`: a change of folder or state invalidates. */
    method UpdateOccurrence(id: nat, folder: string, active: bool)
      requires Valid() && id in occ
      modifies this`occ, this`rows
      ensures State() == Next(old(State()), Update(id, folder, active)) && Valid()
      ensures occ == old(occ)[id := old(occ)[id].(folder := folder, active := active)]
      ensures rows == if old(occ)[id].folder == folder && old(occ)[id].active == active then old(rows)
                      else map s | s in old(rows) :: if s.occurrence == id then old(rows)[s].(current := false)
                                                     else old(rows)[s]
    {
      hide Ok;
      NextKeeps(State(), Update(id, folder, active));
      var before := occ[id];
      occ := occ[id := before.(folder := folder, active := active)];
      if before.folder != folder || before.active != active {
        rows := map s | s in rows :: if s.occurrence == id then rows[s].(current := false) else rows[s];
      }
    }

    /** A message goes with its headers, occurrences and their assessments, by cascade. */
    method DeleteMessage(c: Claimant)
      requires Valid()
      modifies this
      ensures State() == Next(old(State()), Delete(c)) && Valid()
      ensures occ == map id | id in old(occ) && old(occ)[id].claimant != c :: old(occ)[id]
      ensures rows == map s | s in old(rows) && s.occurrence in occ :: old(rows)[s]
      ensures complete == old(complete) - {c} && headers == map k | k in old(headers) && k.claimant != c ::
              old(headers)[k]
    {
      hide Ok;
      NextKeeps(State(), Delete(c));
      headers := map k | k in headers && k.claimant != c :: headers[k];
      complete := complete - {c};
      occ := map id | id in occ && occ[id].claimant != c :: occ[id];
      rows := map s | s in rows && s.occurrence in occ :: rows[s];
    }

    /** `_select_identity_policy`: rows of other versions stay. */
    method SelectPolicy(version: Version)
      requires Valid()
      modifies this`selected
      ensures State() == Next(old(State()), Policy(version)) && Valid()
    {
      hide Ok;
      NextKeeps(State(), Policy(version));
      selected := version;
    }

    // ----- recording -----------------------------------------------------------------------------

    method ReadEvidence(id: nat) returns (e: Evidence)
      requires Valid() && id in occ
      ensures IsEvidence(occ, complete, headers, id, e)
    {
      var c := occ[id].claimant;
      var ordinals := IdentityOrdinals(headers, c);
      var value: Option<string> := None;
      if ordinals != {} {
        var n := Least(ordinals);
        value := Some(headers[Key(c, n)].raw);
      }
      e := Evidence(occ[id].folder, complete[c], |ordinals|, value);
    }

    /**
     * `record_identity_assessment`: a worker whose policy or evidence is no longer the present
     * one writes nothing; otherwise the row becomes its assessment, and is current.
     */
    method Record(p: Pending) returns (stored: bool)
      requires Valid()
      modifies this`rows
      ensures State() == Next(old(State()), Store(p)) && Valid()
      ensures stored <==> old(IsPresent(State(), p))
      ensures rows == if stored then old(rows)[Slot(p.occurrence, p.version) := Assessed(p)] else old(rows)
    {
      hide IsEvidence;
      NextKeeps(State(), Store(p));
      stored := false;
      if selected == p.version && p.occurrence in occ && occ[p.occurrence].active {
        var present := ReadEvidence(p.occurrence);
        if present == p.evidence {
          rows := rows[Slot(p.occurrence, p.version) := Assessed(p)];
          stored := true;
        } else if IsEvidence(occ, complete, headers, p.occurrence, p.evidence) {
          EvidenceIsUnique(occ, complete, headers, p.occurrence, present, p.evidence);
        }
      }
    }

    /** An active occurrence without a current assessment under the selected policy. */
    predicate IsPending(id: nat)
      reads this
    {
      && id in occ && occ[id].active
      && !(Slot(id, selected) in rows && rows[Slot(id, selected)].current)
    }

    /** `pending_identity_evidence`: the first `limit` pending occurrences above the cursor, with their evidence. */
    method PendingEvidence(limit: nat, after: nat) returns (pending: seq<Pending>)
      requires Valid()
      ensures |pending| <= limit && Ascending(pending)
      ensures forall p | p in pending :: Item(p, after)
      ensures forall id | id in PendingIds(after) ::
          Lists(pending, id) || (|pending| == limit && (pending == [] || pending[|pending|-1].occurrence < id))
    {
      hide IsEvidence, Valid;
      ghost var all := PendingIds(after);
      var rest := PendingIds(after);
      pending := [];
      while rest != {} && |pending| < limit
        invariant |pending| <= limit && Ascending(pending)
        invariant forall p | p in pending :: Item(p, after)
        invariant rest <= all && forall id | id in rest :: pending == [] || pending[|pending|-1].occurrence < id
        invariant forall id | id in all && id !in rest :: Lists(pending, id)
        decreases rest
      {
        var id := Least(rest);
        var evidence := ReadEvidence(id);
        ghost var before := pending;
        pending := pending + [Pending(id, selected, evidence)];
        rest := rest - {id};
        ListsMore(before, pending[|before|]);
      }
    }

    function PendingIds(after: nat): set<nat>
      reads this
    {
      set id | id in occ && IsPending(id) && id > after
    }

    /** An entry of the list: pending, above the cursor, with its present evidence. */
    ghost predicate Item(p: Pending, after: nat)
      reads this
    {
      && p.occurrence in PendingIds(after) && p.version == selected
      && IsEvidence(occ, complete, headers, p.occurrence, p.evidence)
    }

    // ----- a pass ----------------------------------------------------------------------------------

    /**
     * `reassess_batch`, with no change of evidence between its reads and its writes: every
     * listed occurrence is assessed, and nothing at or below the last one stays pending that
     * was above the cursor.
     */
    method ReassessBatch(limit: nat, after: nat)
      returns (stale: nat, lastId: nat, exhausted: bool, ghost run: seq<Operation>)
      requires Valid()
      modifies this`rows
      ensures Valid() && stale == 0 && after <= lastId
      ensures State() == After(old(State()), run) && forall op | op in run :: op.Store?
      ensures PendingIds(0) <= old(PendingIds(0))
      ensures forall id | id in PendingIds(after) :: id > lastId && !exhausted
      ensures !exhausted && limit > 0 ==> lastId > after && |PendingIds(lastId)| < |old(PendingIds(after))|
    {
      hide IsEvidence, Valid, Next;
      var pending := PendingEvidence(limit, after);
      stale := 0;
      run := [];
      for i := 0 to |pending|
        invariant Valid() && stale == 0
        invariant State() == After(old(State()), run) && forall op | op in run :: op.Store?
        invariant forall id | IsPending(id) :: old(IsPending(id))
        invariant forall j | 0 <= j < i :: !IsPending(pending[j].occurrence)
        invariant forall p | p in pending ::
                    p.version == selected && p.occurrence in occ && occ[p.occurrence].active
                    && IsEvidence(occ, complete, headers, p.occurrence, p.evidence)
      {
        var stored := Record(pending[i]);
        assert (run + [Store(pending[i])])[..|run|] == run;
        run := run + [Store(pending[i])];
        stale := stale + if stored then 0 else 1;
      }
      lastId := if pending == [] then after else pending[|pending|-1].occurrence;
      exhausted := |pending| < limit;
      ghost var first := old(PendingIds(after));
      assert forall p | p in pending :: !IsPending(p.occurrence);
      forall id | id in PendingIds(after) ensures id > lastId && !exhausted && id in first {
        assert id in first && !Lists(pending, id);
      }
      if pending != [] {
        assert pending[|pending|-1] in pending;
        assert lastId in first;
        assert PendingIds(lastId) <= first - {lastId};
        Fewer(PendingIds(lastId), first - {lastId});
      }
    }

    /** A whole pass, from cursor 0 until a batch is not full: nothing stays pending. */
    method ReassessPass(limit: nat) returns (ghost run: seq<Operation>)
      requires Valid() && limit > 0
      modifies this`rows
      ensures Valid() && PendingIds(0) == {}
      ensures State() == After(old(State()), run) && forall op | op in run :: op.Store?
      ensures forall id | id in occ && occ[id].active :: CurrentIsAssess(id)
    {
      hide IsEvidence, Valid, Next;
      run := [];
      var after := 0;
      var exhausted := false;
      while !exhausted
        invariant Valid()
        invariant State() == After(old(State()), run) && forall op | op in run :: op.Store?
        invariant forall id | id in PendingIds(0) :: id > after && !exhausted
        decreases !exhausted, |PendingIds(after)|
      {
        var from := after;
        var stale;
        ghost var more;
        stale, after, exhausted, more := ReassessBatch(limit, from);
        AfterBoth(old(State()), run, more);
        run := run + more;
        assert forall id | id in PendingIds(0) :: id in PendingIds(from);
      }
      forall id | id in occ && occ[id].active ensures CurrentIsAssess(id) {
        AssessedIsCurrent(id);
      }
    }

    ghost predicate CurrentIsAssess(id: nat)
      reads this
    {
      && Slot(id, selected) in rows && rows[Slot(id, selected)].current
      && exists e :: IsEvidence(occ, complete, headers, id, e) && RowOf(rows[Slot(id, selected)], e)
    }

    lemma AssessedIsCurrent(id: nat)
      requires Valid() && PendingIds(0) == {} && id in occ && occ[id].active
      ensures CurrentIsAssess(id)
    {
      hide IsEvidence, RowOf;
      assert id !in PendingIds(0);
      assert RowAgrees(occ, complete, headers, id, rows[Slot(id, selected)]);
    }

    /** The effective relation of accepted occurrences is empty in every state. */
    lemma NothingIsAccepted(s: Slot)
      requires Valid() && s in rows
      ensures !rows[s].assessment.outcome.Accepted?
    {
      assert RowAgrees(occ, complete, headers, s.occurrence, rows[s]);
    }
  }

  ghost predicate Ascending(pending: seq<Pending>) {
    forall i, j | 0 <= i < j < |pending| :: pending[i].occurrence < pending[j].occurrence
  }

  lemma Fewer(a: set<nat>, b: set<nat>)
    requires a <= b
    ensures |a| <= |b|
  {
    assert b == a + (b - a);
  }

  ghost predicate Lists(pending: seq<Pending>, id: nat) {
    exists p :: p in pending && p.occurrence == id
  }

  lemma ListsMore(pending: seq<Pending>, p: Pending)
    ensures Lists(pending + [p], p.occurrence)
    ensures forall id | Lists(pending, id) :: Lists(pending + [p], id)
  {
    assert p in pending + [p];
    forall id | Lists(pending, id) ensures Lists(pending + [p], id) {
      var q :| q in pending && q.occurrence == id;
      assert q in pending + [p];
    }
  }

  /** A row keeps agreeing when its occurrence's evidence stayed, or when it was invalidated. */
  lemma KeepsAgreeing(occ: map<nat, Occurrence>, complete: map<Claimant, Option<bool>>, headers: map<Key, Header>,
                      occ': map<nat, Occurrence>, complete': map<Claimant, Option<bool>>, headers': map<Key, Header>,
                      id: nat, row: Row, row': Row)
    requires RowAgrees(occ, complete, headers, id, row) && id in occ' && row'.assessment == row.assessment
    requires row'.current ==>
        row' == row && occ'[id] == occ[id] && occ[id].claimant in complete && occ[id].claimant in complete'
                              && complete'[occ[id].claimant] == complete[occ[id].claimant]
    requires row'.current ==>
               forall k: Key | k.claimant == occ[id].claimant && (IsIdentity(headers, k) || IsIdentity(headers', k)) ::
                 k in headers && k in headers' && headers[k] == headers'[k]
    ensures RowAgrees(occ', complete', headers', id, row')
  {
    if row'.current {
      var e :| IsEvidence(occ, complete, headers, id, e) && RowOf(row, e);
      SameHeadersSameEvidence(occ, complete, headers, headers', id, e);
      assert IsEvidence(occ', complete', headers', id, e);
    }
  }

  method Least(s: set<nat>) returns (n: nat)
    requires s != {}
    ensures IsLeast(s, n)
  {
    n :| n in s;
    var rest := s - {n};
    while rest != {}
      invariant rest <= s && n in s && forall m | m in s && m !in rest :: n <= m
      decreases rest
    {
      var m :| m in rest;
      if m < n { n := m; }
      rest := rest - {m};
    }
  }

  /** The store, driven by a run. */
  method Run(version: Version, operations: seq<Operation>) returns (store: IdentityStore)
    ensures fresh(store) && store.Valid() && store.State() == After(Empty(version), operations)
  {
    hide Next, Ok;
    store := new IdentityStore(version);
    for n := 0 to |operations|
      invariant fresh(store) && store.Valid() && store.State() == After(Empty(version), operations[..n])
    {
      assert operations[..n+1][..n] == operations[..n];
      NotAdmitted(store.State(), operations[n]);
      match operations[n]
      case Headers(k, header) => store.WriteHeader(k, header);
      case Completeness(c, whole) => store.WriteComplete(c, whole);
      case Insert(id, o) =>
        if id >= 1 && id !in store.occ && o.claimant in store.complete { store.InsertOccurrence(id, o); }
      case Update(id, folder, active) =>
        if id in store.occ { store.UpdateOccurrence(id, folder, active); }
      case Delete(c) => store.DeleteMessage(c);
      case Policy(selected) => store.SelectPolicy(selected);
      case Store(p) => var stored := store.Record(p);
    }
    assert operations[..|operations|] == operations;
  }

  lemma NotAdmitted(t: Tables, op: Operation)
    ensures !Admitted(t, op) ==> Next(t, op) == t
  {
  }
}
