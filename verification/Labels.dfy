/**
 * Dated label memberships over scan generations: only a complete scan retires one. The
 * tables are compared with the log of what was committed, in which a membership's first
 * and last generations are looked up anew.
 */
module Labels {
  import opened Wrappers
  import Identity

  const MAX_TAG_LENGTH: nat := 512

  datatype Status = InProgress | Complete | Partial | Failed | Interrupted

  datatype Membership = Membership(providerId: string, tag: string)

  datatype Observation = Observation(first: nat, last: nat, retired: Option<nat>)

  /** What was committed, in order. */
  datatype Event =
    | Began(generation: nat)
    | Recorded(generation: nat, memberships: seq<Membership>)
    | Finished(generation: nat, status: Status)

  // ----- the reference: what a history says -------------------------------------------------------

  /** The generations in which a membership was recorded. */
  ghost predicate SeenIn(log: seq<Event>, m: Membership, g: nat) {
    exists i :: 0 <= i < |log| && log[i].Recorded? && log[i].generation == g && m in log[i].memberships
  }

  ghost predicate CompletedIn(log: seq<Event>, g: nat) {
    Finished(g, Complete) in log
  }

  /** Recorded in some generation at or after every complete one. */
  ghost predicate LiveBy(log: seq<Event>, m: Membership) {
    exists g :: SeenIn(log, m, g) && forall c: nat | CompletedIn(log, c) :: c <= g
  }

  ghost predicate LastSeen(log: seq<Event>, m: Membership, g: nat) {
    SeenIn(log, m, g) && forall g': nat | SeenIn(log, m, g') :: g' <= g
  }

  ghost predicate FirstSeen(log: seq<Event>, m: Membership, g: nat) {
    SeenIn(log, m, g) && forall g': nat | SeenIn(log, m, g') :: g <= g'
  }

  ghost predicate FirstCompleteAfter(log: seq<Event>, last: nat, c: nat) {
    c > last && CompletedIn(log, c) && forall c': nat | CompletedIn(log, c') && c' > last :: c <= c'
  }

  // ----- the tables --------------------------------------------------------------------------------

  /** The row a history calls for. */
  ghost predicate Matches(log: seq<Event>, m: Membership, o: Observation) {
    && FirstSeen(log, m, o.first) && LastSeen(log, m, o.last)
    && match o.retired
       case Some(c) => FirstCompleteAfter(log, o.last, c)
       case None => forall c: nat | CompletedIn(log, c) :: c <= o.last
  }

  /** Generations are numbered from 1, none but the newest is open, and their ends are those of the history. */
  ghost predicate Generations(log: seq<Event>, status: map<nat, Status>, count: nat) {
    && (forall g :: g in status <==> 1 <= g <= count)
    && (forall g | g in status && status[g].InProgress? :: g == count)
    && (forall g :: CompletedIn(log, g) <==> g in status && status[g].Complete?)
    && (forall m, g | SeenIn(log, m, g) :: g in status)
  }

  /** The shapes the table's checks allow. */
  predicate Storable(m: Membership) {
    Identity.Canonical(m.providerId) && 1 <= |m.tag| <= MAX_TAG_LENGTH
  }

  function Observed(obs: map<Membership, Observation>, m: Membership, g: nat): Observation {
    Observation(if m in obs then obs[m].first else g, g, None)
  }

  /** A membership that a complete scan did not see retires with it. */
  function Ended(obs: map<Membership, Observation>, generation: nat): map<Membership, Observation> {
    map m | m in obs ::
      if obs[m].retired.None? && obs[m].last < generation then obs[m].(retired := Some(generation)) else obs[m]
  }

  function Seen(obs: map<Membership, Observation>, memberships: seq<Membership>, g: nat): map<Membership, Observation> {
    map m | m in obs.Keys + (set m | m in memberships) :: if m in memberships then Observed(obs, m, g) else obs[m]
  }

  predicate IsOpen(status: map<nat, Status>, g: nat) {
    g in status && status[g].InProgress?
  }

  // ----- the transactions ---------------------------------------------------------------------------

  datatype Tables = Tables(status: map<nat, Status>, obs: map<Membership, Observation>, count: nat, log: seq<Event>)

  datatype Operation =
    | Begin
    | Record(generation: nat, memberships: seq<Membership>)
    | Finish(generation: nat, end: Status)
    | Interrupt

  predicate Admitted(t: Tables, op: Operation) {
    match op
    case Begin => forall g | g in t.status :: !t.status[g].InProgress?
    case Record(g, memberships) => IsOpen(t.status, g) && forall m | m in memberships :: Storable(m)
    case Finish(g, end) => IsOpen(t.status, g) && (end.Complete? || end.Partial? || end.Failed?)
    case Interrupt => true
  }

  /** What a transaction leaves; one that is refused leaves everything. */
  function Next(t: Tables, op: Operation): Tables {
    if !Admitted(t, op) then t
    else match op
      case Begin =>
        var g := t.count + 1;
        t.(status := t.status[g := InProgress], count := g, log := t.log + [Began(g)])
      case Record(g, memberships) =>
        t.(obs := Seen(t.obs, memberships, g), log := t.log + [Recorded(g, memberships)])
      case Finish(g, end) =>
        t.(status := t.status[g := end], obs := if end.Complete? then Ended(t.obs, g) else t.obs,
           log := t.log + [Finished(g, end)])
      case Interrupt =>
        t.(status := map g | g in t.status :: if t.status[g].InProgress? then Interrupted else t.status[g])
  }

  /** The tables are what their history calls for. */
  ghost predicate Ok(t: Tables) {
    && Generations(t.log, t.status, t.count)
    && (forall m :: m in t.obs <==> exists g :: SeenIn(t.log, m, g))
    && forall m | m in t.obs :: Matches(t.log, m, t.obs[m])
  }

  lemma NextKeeps(t: Tables, op: Operation)
    requires Ok(t)
    ensures Ok(Next(t, op))
  {
    hide Matches, Generations, Storable, SeenIn;
    if Admitted(t, op) {
      match op
      case Begin => BeginKeeps(t);
      case Record(g, memberships) =>
        RecordMatches(t.log, t.obs, t.status, t.count, g, memberships, Seen(t.obs, memberships, g));
      case Finish(g, end) => FinishMatches(t.log, t.obs, t.status, t.count, g, end, Next(t, op).obs);
      case Interrupt => InterruptKeeps(t);
    }
  }

  lemma BeginKeeps(t: Tables)
    requires Ok(t) && Admitted(t, Begin)
    ensures Ok(Next(t, Begin))
  {
    hide Matches;
    NothingNew(t.log, Began(t.count + 1));
    SameMatches(t.log, t.log + [Began(t.count + 1)]);
  }

  lemma InterruptKeeps(t: Tables)
    requires Ok(t)
    ensures Ok(Next(t, Interrupt))
  {
    hide Matches, SeenIn, CompletedIn;
  }

  /**
   * What a transaction leaves. A generation begins while none is open; memberships are
   * recorded all together, in the open generation and in the allowed shapes, as live and last
   * seen there; an end is recorded once, and only a complete one retires, just what its scan
   * did not see.
   */
  lemma OperationLeaves(t: Tables, op: Operation)
    ensures var n := Next(t, op);
      match op
      case Begin =>
        if exists g :: g in t.status && t.status[g] == InProgress then n == t
        else n == Tables(t.status[t.count + 1 := InProgress], t.obs, t.count + 1, t.log + [Began(t.count + 1)])
      case Record(g, memberships) =>
        if g in t.status && t.status[g] == InProgress && (forall m | m in memberships :: Shaped(m)) then
          && n == t.(obs := n.obs, log := t.log + [Recorded(g, memberships)])
          && (forall m :: m in n.obs <==> m in t.obs || m in memberships)
          && (forall m | m in memberships :: n.obs[m] == Observation(if m in t.obs then t.obs[m].first else g, g, None))
          && (forall m | m in t.obs && m !in memberships :: n.obs[m] == t.obs[m])
        else n == t
      case Finish(g, end) =>
        if g in t.status && t.status[g] == InProgress && end in {Complete, Partial, Failed} then
          && n == t.(status := t.status[g := end], obs := n.obs, log := t.log + [Finished(g, end)])
          && n.obs.Keys == t.obs.Keys
          && (forall m | m in t.obs ::
                n.obs[m] == if end == Complete && t.obs[m].retired.None? && t.obs[m].last < g
                            then t.obs[m].(retired := Some(g)) else t.obs[m])
        else n == t
      case Interrupt => n == t.(status := n.status)
  {
    forall m ensures Storable(m) <==> Shaped(m) {
      ShapesAre(m);
    }
  }

  /** A provider id of one to 256 printable ASCII characters, and a tag of one to 512 characters. */
  ghost predicate Shaped(m: Membership) {
    && 1 <= |m.providerId| <= 256 && (forall i | 0 <= i < |m.providerId| :: 0x21 <= m.providerId[i] as int <= 0x7e)
    && 1 <= |m.tag| <= 512
  }

  lemma ShapesAre(m: Membership)
    ensures Storable(m) <==> Shaped(m)
  {
  }

  /** An interruption closes what is open, and nothing else, so that the next generation can begin. */
  lemma InterruptCloses(t: Tables)
    ensures var n := Next(t, Interrupt);
      && n == t.(status := n.status) && n.status.Keys == t.status.Keys
      && (forall g | g in t.status ::
            n.status[g] == if t.status[g] == InProgress then Status.Interrupted else t.status[g])
      && Admitted(n, Begin)
  {
  }

  /** A membership is live exactly when it was recorded in some generation at or after every complete one. */
  lemma LiveIffSeenSinceComplete(t: Tables, m: Membership)
    requires Ok(t)
    ensures (m in t.obs && t.obs[m].retired.None?) <==> LiveBy(t.log, m)
  {
    hide SeenIn, CompletedIn;
  }

  /** A retired membership was retired by the first complete generation after it was last seen. */
  lemma RetiredByFirstComplete(t: Tables, m: Membership)
    requires Ok(t) && m in t.obs && t.obs[m].retired.Some?
    ensures LastSeen(t.log, m, t.obs[m].last) && FirstCompleteAfter(t.log, t.obs[m].last, t.obs[m].retired.value)
  {
  }

  /** The tables after a run from nothing. */
  function After(operations: seq<Operation>): Tables {
    if operations == [] then Tables(map[], map[], 0, [])
    else Next(After(operations[..|operations|-1]), operations[|operations|-1])
  }

  /** A run is its operations, one after another, each on what the earlier ones left. */
  lemma RunIsItsSteps(operations: seq<Operation>, i: nat)
    requires i < |operations|
    ensures After(operations[..0]) == Tables(map[], map[], 0, [])
    ensures After(operations[..i+1]) == Next(After(operations[..i]), operations[i])
  {
    hide Next;
    assert operations[..i+1][..i] == operations[..i];
  }

  lemma {:induction false} RunKeeps(operations: seq<Operation>)
    ensures Ok(After(operations))
  {
    hide Next, Ok;
    if operations == [] {
      NothingIsOk();
    } else {
      RunKeeps(operations[..|operations|-1]);
      NextKeeps(After(operations[..|operations|-1]), operations[|operations|-1]);
    }
  }

  lemma NothingIsOk()
    ensures Ok(After([]))
  {
  }

  /** After every run, refused operations among it, both hold. */
  lemma LiveInEveryRun(operations: seq<Operation>, m: Membership)
    ensures var t := After(operations);
      && ((m in t.obs && t.obs[m].retired.None?) <==> LiveBy(t.log, m))
      && (m in t.obs && t.obs[m].retired.Some? ==>
            LastSeen(t.log, m, t.obs[m].last) && FirstCompleteAfter(t.log, t.obs[m].last, t.obs[m].retired.value))
  {
    hide *;
    RunKeeps(operations);
    LiveIffSeenSinceComplete(After(operations), m);
    if m in After(operations).obs && After(operations).obs[m].retired.Some? {
      RetiredByFirstComplete(After(operations), m);
    }
  }

  class LabelStore {
    var status: map<nat, Status>
    var obs: map<Membership, Observation>
    /** `MAX(generation)`, or 0. */
    var count: nat
    ghost var log: seq<Event>

    constructor ()
      ensures Valid() && State() == After([])
    {
      status, obs, count, log := map[], map[], 0, [];
    }

    ghost predicate Valid()
      reads this
    {
      Ok(State())
    }

    ghost function State(): Tables
      reads this
    {
      Tables(status, obs, count, log)
    }

    /** `begin_label_generation`: refused while one is open. */
    method Begin() returns (generation: Option<nat>)
      requires Valid()
      modifies this
      ensures State() == Next(old(State()), Operation.Begin) && Valid()
      ensures generation.None? <==> exists g :: g in old(status) && old(status)[g].InProgress?
      ensures generation.None? ==> State() == old(State())
      ensures generation.Some? ==>
                && log == old(log) + [Began(generation.value)] && obs == old(obs)
                && generation.value !in old(status) && status == old(status)[generation.value := InProgress]
    {
      hide Matches;
      NextKeeps(State(), Operation.Begin);
      if g :| g in status && status[g].InProgress? {
        return None;
      }
      count := count + 1;
      status := status[count := InProgress];
      log := log + [Began(count)];
      generation := Some(count);
    }

    /** `record_label_memberships`: all of them, or none when the generation is not open or a row is refused. */
    method Record(generation: nat, memberships: seq<Membership>) returns (ok: bool)
      requires Valid()
      modifies this
      ensures State() == Next(old(State()), Operation.Record(generation, memberships)) && Valid()
      ensures ok <==> IsOpen(old(status), generation) && forall m | m in memberships :: Storable(m)
      ensures !ok ==> State() == old(State())
      ensures ok ==> log == old(log) + [Recorded(generation, memberships)] && status == old(status)
      ensures ok ==> obs == Seen(old(obs), memberships, generation)
    {
      hide Ok, Storable;
      NextKeeps(State(), Operation.Record(generation, memberships));
      if !(generation in status && status[generation].InProgress?) {
        return false;
      }
      var rows := obs;
      for i := 0 to |memberships|
        invariant forall m | m in memberships[..i] :: Storable(m)
        invariant rows.Keys == obs.Keys + set m | m in memberships[..i]
        invariant forall m | m in rows ::
            rows[m] == if m in memberships[..i] then Observed(obs, m, generation) else obs[m]
      {
        var m := memberships[i];
        assert memberships[..i+1] == memberships[..i] + [m];
        if !Storable(m) {
          return false;
        }
        rows := rows[m := Observation(if m in rows then rows[m].first else generation, generation, None)];
      }
      assert memberships[..|memberships|] == memberships;
      obs := rows;
      log := log + [Recorded(generation, memberships)];
      ok := true;
    }

    /** `finish_label_generation`: only a complete scan retires, and just what it did not see. */
    method Finish(generation: nat, end: Status) returns (ok: bool)
      requires Valid()
      modifies this
      ensures State() == Next(old(State()), Operation.Finish(generation, end)) && Valid()
      ensures ok <==> IsOpen(old(status), generation) && (end.Complete? || end.Partial? || end.Failed?)
      ensures !ok ==> State() == old(State())
      ensures ok ==> log == old(log) + [Finished(generation, end)] && status == old(status)[generation := end]
      ensures ok ==> obs == if end.Complete? then Ended(old(obs), generation) else old(obs)
    {
      hide Ok;
      NextKeeps(State(), Operation.Finish(generation, end));
      if !(end.Complete? || end.Partial? || end.Failed?) || !(generation in status && status[generation].InProgress?) {
        return false;
      }
      status := status[generation := end];
      if end.Complete? {
        obs := map m | m in obs ::
          if obs[m].retired.None? && obs[m].last < generation then obs[m].(retired := Some(generation)) else obs[m];
      }
      log := log + [Finished(generation, end)];
      ok := true;
    }

    /** `interrupt_open_label_generations`: nothing is retired. */
    method Interrupt() returns (n: nat)
      requires Valid()
      modifies this`status
      ensures State() == Next(old(State()), Operation.Interrupt) && Valid()
      ensures n <= 1 && (n == 1 <==> exists g :: g in old(status) && old(status)[g].InProgress?)
    {
      hide Matches, SeenIn, CompletedIn;
      NextKeeps(State(), Operation.Interrupt);
      n := 0;
      if count in status && status[count].InProgress? {
        n := 1;
      }
      status := map g | g in status :: if status[g].InProgress? then Interrupted else status[g];
    }
  }

  lemma NothingNew(log: seq<Event>, e: Event)
    requires !e.Recorded? && !(e.Finished? && e.status.Complete?)
    ensures forall m, g :: SeenIn(log + [e], m, g) <==> SeenIn(log, m, g)
    ensures forall g :: CompletedIn(log + [e], g) <==> CompletedIn(log, g)
  {
    forall m, g ensures SeenIn(log + [e], m, g) <==> SeenIn(log, m, g) {
      SeenAfter(log, e, m, g);
    }
  }

  lemma SeenAfter(log: seq<Event>, e: Event, m: Membership, g: nat)
    ensures SeenIn(log + [e], m, g) <==> SeenIn(log, m, g) || (e.Recorded? && e.generation == g && m in e.memberships)
  {
    var after := log + [e];
    if SeenIn(log, m, g) {
      var i :| 0 <= i < |log| && log[i].Recorded? && log[i].generation == g && m in log[i].memberships;
      assert after[i] == log[i];
    }
    if e.Recorded? && e.generation == g && m in e.memberships {
      assert after[|log|] == e;
    }
  }

  lemma SameMatches(log: seq<Event>, log': seq<Event>)
    requires forall m, g :: SeenIn(log', m, g) <==> SeenIn(log, m, g)
    requires forall g :: CompletedIn(log', g) <==> CompletedIn(log, g)
    ensures forall m, o :: Matches(log', m, o) <==> Matches(log, m, o)
  {
    hide SeenIn, CompletedIn;
  }

  lemma RecordMatches(log: seq<Event>, obs: map<Membership, Observation>, status: map<nat, Status>, count: nat,
                      generation: nat, memberships: seq<Membership>, rows: map<Membership, Observation>)
    requires Generations(log, status, count) && generation in status && status[generation].InProgress?
    requires forall m :: m in obs <==> exists g :: SeenIn(log, m, g)
    requires forall m | m in obs :: Matches(log, m, obs[m])
    requires rows.Keys == obs.Keys + set m | m in memberships
    requires forall m | m in rows :: rows[m] == if m in memberships then Observed(obs, m, generation) else obs[m]
    ensures var log' := log + [Recorded(generation, memberships)];
            && Generations(log', status, count)
            && (forall m :: m in rows <==> exists g :: SeenIn(log', m, g))
            && forall m | m in rows :: Matches(log', m, rows[m])
  {
    var log' := log + [Recorded(generation, memberships)];
    forall m, g ensures SeenIn(log', m, g) <==> SeenIn(log, m, g) || (g == generation && m in memberships) {
      SeenAfter(log, Recorded(generation, memberships), m, g);
    }
    assert forall g :: CompletedIn(log', g) <==> CompletedIn(log, g);
    hide SeenIn, CompletedIn, Matches;
    StillGenerations(log, log', status, count, generation);
    hide Generations;
    forall m | m in rows ensures Matches(log', m, rows[m]) {
      if m in memberships {
        NowSeen(log, log', status, count, m, generation, if m in obs then Some(obs[m]) else None);
      } else {
        NotSeen(log, log', m, obs[m]);
      }
    }
  }

  lemma StillGenerations(log: seq<Event>, log': seq<Event>, status: map<nat, Status>, count: nat, generation: nat)
    requires Generations(log, status, count) && generation in status
    requires forall m, g | SeenIn(log', m, g) :: SeenIn(log, m, g) || g == generation
    requires forall g :: CompletedIn(log', g) <==> CompletedIn(log, g)
    ensures Generations(log', status, count)
  {
    hide SeenIn, CompletedIn;
  }

  lemma NotSeen(log: seq<Event>, log': seq<Event>, m: Membership, o: Observation)
    requires Matches(log, m, o)
    requires forall g :: SeenIn(log', m, g) <==> SeenIn(log, m, g)
    requires forall g :: CompletedIn(log', g) <==> CompletedIn(log, g)
    ensures Matches(log', m, o)
  {
    hide SeenIn, CompletedIn;
  }

  lemma NowSeen(log: seq<Event>, log': seq<Event>, status: map<nat, Status>, count: nat, m: Membership, generation: nat,
                o: Option<Observation>)
    requires Generations(log, status, count) && generation in status && status[generation].InProgress?
    requires if o.Some? then Matches(log, m, o.value) else forall g :: !SeenIn(log, m, g)
    requires forall g :: SeenIn(log', m, g) <==> SeenIn(log, m, g) || g == generation
    requires forall g :: CompletedIn(log', g) <==> CompletedIn(log, g)
    ensures Matches(log', m, Observation(if o.Some? then o.value.first else generation, generation, None))
  {
    hide SeenIn, CompletedIn;
  }

  lemma EndedMatches(log: seq<Event>, log': seq<Event>, status: map<nat, Status>, count: nat, m: Membership,
                     generation: nat,
              complete: bool, o: Observation)
    requires Generations(log, status, count) && generation in status && status[generation].InProgress?
    requires Matches(log, m, o)
    requires forall g :: SeenIn(log', m, g) <==> SeenIn(log, m, g)
    requires forall g :: CompletedIn(log', g) <==> CompletedIn(log, g) || (g == generation && complete)
    ensures var retires := complete && o.retired.None? && o.last < generation;
      Matches(log', m, if retires then o.(retired := Some(generation)) else o)
  {
    hide SeenIn, CompletedIn;
  }

  lemma EndedGenerations(log: seq<Event>, log': seq<Event>, status: map<nat, Status>, count: nat, generation: nat,
                         end: Status)
    requires Generations(log, status, count) && generation in status && status[generation].InProgress?
    requires !end.InProgress?
    requires forall m, g | SeenIn(log', m, g) :: SeenIn(log, m, g)
    requires forall g :: CompletedIn(log', g) <==> CompletedIn(log, g) || (g == generation && end.Complete?)
    ensures Generations(log', status[generation := end], count)
  {
    hide SeenIn, CompletedIn;
  }

  lemma FinishMatches(log: seq<Event>, obs: map<Membership, Observation>, status: map<nat, Status>, count: nat,
                      generation: nat, end: Status, rows: map<Membership, Observation>)
    requires Generations(log, status, count) && generation in status && status[generation].InProgress?
    requires !end.InProgress?
    requires forall m :: m in obs <==> exists g :: SeenIn(log, m, g)
    requires forall m | m in obs :: Matches(log, m, obs[m])
    requires rows.Keys == obs.Keys
    requires forall m | m in rows ::
               rows[m] == if end.Complete? && obs[m].retired.None? && obs[m].last < generation
                   then obs[m].(retired := Some(generation)) else obs[m]
    ensures var log' := log + [Finished(generation, end)];
            && Generations(log', status[generation := end], count)
            && (forall m :: m in rows <==> exists g :: SeenIn(log', m, g))
            && forall m | m in rows :: Matches(log', m, rows[m])
  {
    var log' := log + [Finished(generation, end)];
    forall m, g ensures SeenIn(log', m, g) <==> SeenIn(log, m, g) {
      SeenAfter(log, Finished(generation, end), m, g);
    }
    assert forall g :: CompletedIn(log', g) <==> CompletedIn(log, g) || (g == generation && end.Complete?);
    hide SeenIn, CompletedIn, Matches;
    EndedGenerations(log, log', status, count, generation, end);
    hide Generations;
    forall m | m in rows ensures Matches(log', m, rows[m]) {
      EndedMatches(log, log', status, count, m, generation, end.Complete?, obs[m]);
    }
  }

  /** The store, driven by a run. */
  method Run(operations: seq<Operation>) returns (store: LabelStore)
    ensures fresh(store) && store.Valid() && store.State() == After(operations)
  {
    hide Ok, Next;
    store := new LabelStore();
    for n := 0 to |operations|
      invariant fresh(store) && store.Valid() && store.State() == After(operations[..n])
    {
      assert operations[..n+1][..n] == operations[..n];
      match operations[n]
      case Begin => var generation := store.Begin();
      case Record(generation, memberships) => var ok := store.Record(generation, memberships);
      case Finish(generation, end) => var ok := store.Finish(generation, end);
      case Interrupt => var ended := store.Interrupt();
    }
    assert operations[..|operations|] == operations;
  }
}
