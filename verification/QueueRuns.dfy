/**
 * Runs of the queue: a worker, watcher and reaper threads, the operator, and
 * process death at any point. What `attempts` counts over all of them.
 */
module QueueRuns {
  import opened Wrappers
  import opened Queue

  /**
   * Where the worker stands: between steps, or inside an outcome method, past its settling
   * or holding the count it read.
   */
  datatype Worker =
    | Idle
    | Settling(path: Path, outcome: Outcome)
    | Holding(path: Path, attempts: nat, outcome: Outcome)

  /** The queue, the rows the worker holds from its last claim, and the worker. */
  datatype System = System(q: State, claimed: set<Path>, worker: Worker)

  /** One commit each, or the worker's read of a count. */
  datatype Step =
    | EnqueueStep(path: Path, due: int)
    | AbsentStep(paths: set<Path>, now: int)
    | ClaimStep(paths: set<Path>)
    | BeginStep(path: Path)
    | EndStep(path: Path)
    | ReleaseStep(path: Path)
    | MarkStep(paths: set<Path>)
    | SettleStep(path: Path, outcome: Outcome)
    | ReadStep
    | WriteStep
    | DeferInTxStep(path: Path, stage: string, cls: ErrorClass, due: int)
    | RequeueStep(filter: Option<ErrorClass>, now: int)
    | UnmarkStep(paths: set<Path>)
    | DeathStep

  /**
   * When a step can happen. The worker claims queued rows, works only on rows it
   * claimed, finishes one method before the next, begins one step at a time, and releases
   * a charge only once the transaction that refunded it committed; everyone else acts at
   * any time, between the commits of an outcome too.
   */
  predicate Enabled(s: System, step: Step) {
    match step
    case ClaimStep(paths) => s.worker.Idle? && forall p | p in paths :: p in s.q.rows && s.q.rows[p].status == Queued
    case BeginStep(p) => s.worker.Idle? && p in s.claimed && s.q.inFlight == None
    case EndStep(_) => s.worker.Idle?
    case ReleaseStep(p) => s.worker.Idle? && (s.q.inFlight == Some(p) ==> !Refundable(s.q, p))
    case MarkStep(_) => s.worker.Idle? && s.q.inFlight == None
    case SettleStep(p, _) => s.worker.Idle? && p in s.claimed
    case ReadStep => s.worker.Settling? && s.worker.outcome.Reads()
    case WriteStep => s.worker.Holding? || (s.worker.Settling? && !s.worker.outcome.Reads())
    case DeferInTxStep(p, _, _, _) => s.worker.Idle? && p in s.claimed
    case _ => true
  }

  function Next(cfg: Config, s: System, step: Step): System
    requires Enabled(s, step)
  {
    match step
    case EnqueueStep(p, due) => s.(q := Enqueue(s.q, p, due))
    case AbsentStep(paths, now) => s.(q := EnqueueAbsent(s.q, paths, now))
    case ClaimStep(paths) => s.(claimed := s.claimed + paths)
    case BeginStep(p) =>
      s.(q := Begin(cfg, s.q, p), claimed := if BeginRuns(cfg, s.q, p) then s.claimed else s.claimed - {p})
    case EndStep(p) => s.(q := Settle(s.q, p))
    case ReleaseStep(p) => s.(q := Release(s.q, p))
    case MarkStep(paths) => s.(q := MarkInterrupted(s.q, paths))
    case SettleStep(p, o) => s.(q := Settle(s.q, p), worker := Settling(p, o))
    case ReadStep =>
      var p := s.worker.path;
      if p in s.q.rows then s.(worker := Holding(p, s.q.rows[p].attempts, s.worker.outcome))
      else s.(claimed := s.claimed - {p}, worker := Idle)
    case WriteStep =>
      var p := s.worker.path;
      var read := if s.worker.Holding? then s.worker.attempts else 0;
      System(Write(cfg, s.q, p, read, s.worker.outcome), s.claimed - {p}, Idle)
    case DeferInTxStep(p, stage, cls, due) => s.(q := DeferInTransaction(s.q, p, stage, cls, due))
    case RequeueStep(filter, now) => s.(q := RequeueDead(s.q, filter, now))
    case UnmarkStep(paths) => s.(q := Unmark(s.q, paths))
    case DeathStep => System(Die(s.q), {}, Idle)
  }

  /** An outcome method with nobody between its commits is its steps in a row. */
  lemma OutcomeIsItsSteps(cfg: Config, s: System, p: Path, o: Outcome)
    requires Enabled(s, SettleStep(p, o))
    ensures var settled := Next(cfg, s, SettleStep(p, o));
            var last := if o.Reads() then Next(cfg, settled, ReadStep) else settled;
            var end := if last.worker.Idle? then last else Next(cfg, last, WriteStep);
            end.q == Conclude(cfg, s.q, p, o, (_, rows) => rows, 0) && end.worker.Idle?
  {
  }

  // ----- what happened, counted from the steps alone -------------------------------

  /**
   * Failures and deaths charged since the last reset, whether a charge is open, and how
   * many attempts from before a reset were written over it.
   */
  datatype Account = Account(charges: nat, open: bool, stale: nat)

  /**
   * The accounts and, for the path whose count the worker holds, what the account came to
   * when it was read, and whether a reset of the path has been committed since.
   */
  datatype Ledger = Ledger(accounts: map<Path, Account>, read: nat, crossed: bool)

  const NOTHING := Account(0, false, 0)

  function Acct(l: Ledger, p: Path): Account {
    if p in l.accounts then l.accounts[p] else NOTHING
  }

  function Put(l: Ledger, p: Path, a: Account): Ledger {
    l.(accounts := l.accounts[p := a])
  }

  function CloseCharge(l: Ledger, p: Path): Ledger {
    Put(l, p, Acct(l, p).(open := false))
  }

  /** The paths whose rows the step replaces, removes or gives a fresh budget. */
  function Resets(s: System, step: Step): set<Path> {
    match step
    case EnqueueStep(p, _) => {p}
    case AbsentStep(paths, _) => paths - s.q.rows.Keys
    case RequeueStep(filter, _) => set p | p in s.q.rows && Rescued(s.q.rows[p], filter)
    case UnmarkStep(paths) => paths
    case _ => {}
  }

  function Reset(s: System, l: Ledger, paths: set<Path>): Ledger {
    Ledger(map p | p in l.accounts.Keys + paths :: if p in paths then NOTHING else l.accounts[p],
           l.read, l.crossed || (s.worker.Holding? && s.worker.path in paths))
  }

  /** The write of an outcome charges a failure, and puts what was read over a reset that crossed it. */
  function RecordWrite(s: System, l: Ledger): Ledger
    requires Enabled(s, WriteStep)
  {
    var p := s.worker.path;
    if !s.worker.Holding? || p !in s.q.rows then l
    else
      var a := Acct(l, p);
      var charges := a.charges + if s.worker.outcome.Failed? then 1 else 0;
      Put(l, p, Account(charges, false, if l.crossed then l.read else a.stale))
  }

  /**
   * The bookkeeping a reader of the steps would keep; of the counts themselves it sees only
   * whether a begin ran.
   */
  function Record(cfg: Config, s: System, l: Ledger, step: Step): Ledger
    requires Enabled(s, step)
  {
    match step
    case BeginStep(p) =>
      if BeginRuns(cfg, s.q, p) && p in s.q.rows && s.q.rows[p].status
          == Queued then Put(l, p, Acct(l, p).(open := true)) else l
    case EndStep(p) => if s.q.inFlight == Some(p) then CloseCharge(l, p) else l
    case SettleStep(p, _) => CloseCharge(l, p)
    case ReadStep => l.(read := Acct(l, s.worker.path).charges + Acct(l, s.worker.path).stale, crossed := false)
    case WriteStep => RecordWrite(s, l)
    case DeferInTxStep(p, _, _, _) => CloseCharge(l, p)
    case DeathStep =>
      l.(accounts := map p | p in l.accounts ::
           Account(l.accounts[p].charges + (if l.accounts[p].open then 1 else 0), false, l.accounts[p].stale))
    case _ => Reset(s, l, Resets(s, step))
  }

  function Count(a: Account): nat {
    a.charges + a.stale + if a.open then 1 else 0
  }

  ghost predicate RowOk(s: System, l: Ledger, p: Path)
    requires p in s.q.rows
  {
    var r, a := s.q.rows[p], Acct(l, p);
    && (r.status == Queued ==> r.attempts == Count(a))
    && (a.open ==> s.q.inFlight == Some(p) && r.stage == Some(Interrupted))
    && (s.q.inFlight == Some(p) && Refundable(s.q, p) ==> a.open)
    && (p in s.claimed ==> r.status == Queued)
  }

  /** Inside an outcome the path is claimed and its charge settled; what is held is what the account was. */
  ghost predicate WorkerOk(s: System, l: Ledger) {
    match s.worker
    case Idle => true
    case Settling(p, _) => p in s.claimed && s.q.inFlight != Some(p)
    case Holding(p, attempts, o) =>
      && p in s.claimed && s.q.inFlight != Some(p) && o.Reads() && attempts == l.read
      && if l.crossed then Acct(l, p) == NOTHING else attempts == Count(Acct(l, p))
  }

  /** `attempts` is the ledger's count, and the refund test finds exactly the open charge. */
  ghost predicate Inv(s: System, l: Ledger) {
    && (forall p | p in s.q.rows :: RowOk(s, l, p))
    && (forall p | p !in s.q.rows :: !Acct(l, p).open)
    && (s.q.inFlight.Some? ==> s.q.inFlight.value in s.claimed)
    && WorkerOk(s, l)
  }

  /** What the invariant says of one path. */
  ghost predicate PathOk(s: System, l: Ledger, p: Path) {
    && (if p in s.q.rows then RowOk(s, l, p) else !Acct(l, p).open)
    && (s.q.inFlight == Some(p) ==> p in s.claimed)
    && (!s.worker.Idle? && s.worker.path == p ==> WorkerOk(s, l))
  }

  predicate IsOutcome(step: Step) {
    step.SettleStep? || step.ReadStep? || step.WriteStep? || step.DeferInTxStep?
  }

  predicate IsCharge(step: Step) {
    step.BeginStep? || step.EndStep? || step.ReleaseStep? || step.MarkStep? || step.DeathStep?
  }

  lemma PathKeeps(cfg: Config, s: System, l: Ledger, step: Step, p: Path)
    requires PathOk(s, l, p) && Enabled(s, step)
    ensures PathOk(Next(cfg, s, step), Record(cfg, s, l, step), p)
  {
    hide PathOk, Enabled, Next, Record;
    if IsOutcome(step) {
      OutcomesKeep(cfg, s, l, step, p);
    } else if IsCharge(step) {
      ChargesKeep(cfg, s, l, step, p);
    } else {
      OthersKeep(cfg, s, l, step, p);
    }
  }

  lemma OthersKeep(cfg: Config, s: System, l: Ledger, step: Step, p: Path)
    requires PathOk(s, l, p) && Enabled(s, step) && !IsOutcome(step) && !IsCharge(step)
    ensures PathOk(Next(cfg, s, step), Record(cfg, s, l, step), p)
  {
  }

  lemma OutcomesKeep(cfg: Config, s: System, l: Ledger, step: Step, p: Path)
    requires PathOk(s, l, p) && Enabled(s, step) && IsOutcome(step)
    ensures PathOk(Next(cfg, s, step), Record(cfg, s, l, step), p)
  {
  }

  lemma ChargesKeep(cfg: Config, s: System, l: Ledger, step: Step, p: Path)
    requires PathOk(s, l, p) && Enabled(s, step) && IsCharge(step)
    ensures PathOk(Next(cfg, s, step), Record(cfg, s, l, step), p)
  {
  }

  lemma StepKeeps(cfg: Config, s: System, l: Ledger, step: Step)
    requires Inv(s, l) && Enabled(s, step)
    ensures Inv(Next(cfg, s, step), Record(cfg, s, l, step))
  {
    hide Next, Record, Enabled, RowOk, Acct, WorkerOk;
    forall p
      ensures PathOk(Next(cfg, s, step), Record(cfg, s, l, step), p)
    {
      assert PathOk(s, l, p);
      PathKeeps(cfg, s, l, step, p);
    }
    var s', l' := Next(cfg, s, step), Record(cfg, s, l, step);
    assert forall p | p in s'.q.rows :: PathOk(s', l', p);
    assert s'.q.inFlight.Some? ==> PathOk(s', l', s'.q.inFlight.value);
    assert forall p | p !in s'.q.rows :: PathOk(s', l', p);
    if s'.worker.Idle? {
      IdleIsOk(s', l');
    } else {
      assert PathOk(s', l', s'.worker.path);
    }
  }

  lemma IdleIsOk(s: System, l: Ledger)
    requires s.worker.Idle?
    ensures WorkerOk(s, l)
  {
  }

  // ----- whole runs ------------------------------------------------------------------

  const START := System(State(map[], None), {}, Idle)
  const EMPTY := Ledger(map[], 0, false)

  predicate Possible(cfg: Config, start: System, steps: seq<Step>)
    decreases |steps|, 0
  {
    steps == [] ||
    (Possible(cfg, start, steps[..|steps|-1]) && Enabled(Final(cfg, start, steps[..|steps|-1]), steps[|steps|-1]))
  }

  function Final(cfg: Config, start: System, steps: seq<Step>): System
    requires Possible(cfg, start, steps)
    decreases |steps|, 1
  {
    if steps == [] then start else Next(cfg, Final(cfg, start, steps[..|steps|-1]), steps[|steps|-1])
  }

  function Books(cfg: Config, start: System, steps: seq<Step>): Ledger
    requires Possible(cfg, start, steps)
  {
    if steps == [] then EMPTY
    else
      var before := steps[..|steps|-1];
      Record(cfg, Final(cfg, start, before), Books(cfg, start, before), steps[|steps|-1])
  }

  lemma {:induction false} RunKeeps(cfg: Config, steps: seq<Step>)
    requires Possible(cfg, START, steps)
    ensures Inv(Final(cfg, START, steps), Books(cfg, START, steps))
  {
    if steps != [] {
      var before := steps[..|steps|-1];
      RunKeeps(cfg, before);
      StepKeeps(cfg, Final(cfg, START, before), Books(cfg, START, before), steps[|steps|-1]);
    }
  }

  // ----- resets that land between a read and its write ------------------------------------

  lemma {:induction false} PrefixIsPossible(cfg: Config, start: System, steps: seq<Step>, i: nat)
    requires Possible(cfg, start, steps) && i <= |steps|
    ensures Possible(cfg, start, steps[..i])
  {
    if i < |steps| {
      PrefixIsPossible(cfg, start, steps[..|steps|-1], i);
      assert steps[..|steps|-1][..i] == steps[..i];
    } else {
      assert steps[..i] == steps;
    }
  }

  /** The system just before step `i` of a possible run, or at its end. */
  function At(cfg: Config, steps: seq<Step>, i: nat): System {
    if i <= |steps| && Possible(cfg, START, steps[..i]) then Final(cfg, START, steps[..i]) else START
  }

  predicate Holds(s: System, p: Path) {
    s.worker.Holding? && s.worker.path == p
  }

  predicate HeldAt(cfg: Config, steps: seq<Step>, p: Path, i: nat) {
    i <= |steps| && Holds(At(cfg, steps, i), p)
  }

  predicate ResetAt(cfg: Config, steps: seq<Step>, p: Path, i: nat) {
    i < |steps| && p in Resets(At(cfg, steps, i), steps[i])
  }

  /** Step `j` resets `p` while the worker holds its count, and it still holds it at `k`. */
  ghost predicate Crossed(cfg: Config, steps: seq<Step>, p: Path, j: nat, k: nat) {
    j < k && ResetAt(cfg, steps, p, j) && forall i: nat | j <= i <= k :: HeldAt(cfg, steps, p, i)
  }

  /** Step `k` writes to `p`'s row a count that was read before the reset at `j`. */
  ghost predicate CrossedWrite(cfg: Config, steps: seq<Step>, p: Path, j: nat, k: nat) {
    k < |steps| && steps[k] == WriteStep && p in At(cfg, steps, k).q.rows && Crossed(cfg, steps, p, j, k)
  }

  /** No reset of `p` follows step `k`. */
  ghost predicate Lasts(cfg: Config, steps: seq<Step>, p: Path, k: nat) {
    forall i: nat | k < i :: !ResetAt(cfg, steps, p, i)
  }

  /** A write over a reset that no later reset undoes. */
  ghost predicate LastCrossing(cfg: Config, steps: seq<Step>, p: Path, j: nat, k: nat) {
    CrossedWrite(cfg, steps, p, j, k) && Lasts(cfg, steps, p, k)
  }

  lemma EarlierIsSame(cfg: Config, steps: seq<Step>, i: nat)
    requires Possible(cfg, START, steps) && i < |steps|
    ensures At(cfg, steps[..|steps|-1], i) == At(cfg, steps, i)
    ensures At(cfg, steps, |steps| - 1) == Final(cfg, START, steps[..|steps|-1])
    ensures At(cfg, steps, |steps|) == Final(cfg, START, steps)
  {
    assert steps[..|steps|-1][..i] == steps[..i];
    assert steps[..|steps|] == steps;
  }

  lemma CrossedEarlier(cfg: Config, steps: seq<Step>, p: Path, j: nat, k: nat)
    requires Possible(cfg, START, steps) && k < |steps|
    ensures Crossed(cfg, steps[..|steps|-1], p, j, k) <==> Crossed(cfg, steps, p, j, k)
  {
    hide At, Resets, Holds;
    var before := steps[..|steps|-1];
    forall i: nat | i <= k
      ensures HeldAt(cfg, before, p, i) <==> HeldAt(cfg, steps, p, i)
    {
      EarlierIsSame(cfg, steps, i);
    }
    if j < k {
      EarlierIsSame(cfg, steps, j);
    }
  }

  lemma LastCrossingEarlier(cfg: Config, steps: seq<Step>, p: Path, j: nat, k: nat)
    requires Possible(cfg, START, steps) && k < |steps| - 1
    ensures LastCrossing(cfg, steps, p, j, k)
      <==> LastCrossing(cfg, steps[..|steps|-1], p, j, k) && !ResetAt(cfg, steps, p, |steps| - 1)
  {
    hide At, Resets, Crossed;
    var before := steps[..|steps|-1];
    CrossedEarlier(cfg, steps, p, j, k);
    EarlierIsSame(cfg, steps, k);
    forall i: nat | k < i
      ensures ResetAt(cfg, steps, p, i)
          <==> ResetAt(cfg, before, p, i) || (i == |steps| - 1 && ResetAt(cfg, steps, p, i))
    {
      if i < |before| { EarlierIsSame(cfg, steps, i); }
    }
  }

  /** A reset crossed what the worker holds now. */
  ghost predicate HeldCrossed(cfg: Config, steps: seq<Step>, p: Path) {
    exists j: nat :: Crossed(cfg, steps, p, j, |steps|)
  }

  /** The ledger's mark says what the steps say: a reset crossed what the worker holds. */
  lemma {:induction false} CrossedIsCrossed(cfg: Config, steps: seq<Step>, p: Path)
    requires Possible(cfg, START, steps) && Holds(Final(cfg, START, steps), p)
    ensures Books(cfg, START, steps).crossed <==> HeldCrossed(cfg, steps, p)
  {
    hide Crossed, At;
    var n := |steps| - 1;
    var before, step := steps[..n], steps[n];
    var s, l := Final(cfg, START, before), Books(cfg, START, before);
    EarlierIsSame(cfg, steps, n);
    if Holds(s, p) {
      CrossedIsCrossed(cfg, before, p);
      forall j: nat
        ensures Crossed(cfg, steps, p, j, |steps|)
          <==> Crossed(cfg, before, p, j, n) || (j == n && p in Resets(s, step))
      {
        CrossedLonger(cfg, steps, p, j);
      }
      if p in Resets(s, step) { assert Crossed(cfg, steps, p, n, |steps|); }
      HoldingStep(cfg, s, l, step, p);
    } else {
      ReadStarts(cfg, s, step, p);
      forall j: nat
        ensures !Crossed(cfg, steps, p, j, |steps|)
      {
        NotHeldNotCrossed(cfg, steps, p, j);
      }
    }
  }

  lemma CrossedLonger(cfg: Config, steps: seq<Step>, p: Path, j: nat)
    requires Possible(cfg, START, steps) && |steps| > 0
    requires Holds(Final(cfg, START, steps), p) && Holds(Final(cfg, START, steps[..|steps|-1]), p)
    ensures var n := |steps| - 1;
      Crossed(cfg, steps, p, j, |steps|)
      <==> Crossed(cfg, steps[..n], p, j, n) || (j == n && p in Resets(Final(cfg, START, steps[..n]), steps[n]))
  {
    hide Resets, Holds, Final, At;
    var n := |steps| - 1;
    EarlierIsSame(cfg, steps, n);
    CrossedEarlier(cfg, steps, p, j, n);
    assert HeldAt(cfg, steps, p, n) && HeldAt(cfg, steps, p, n + 1);
    if Crossed(cfg, steps, p, j, n) {
      forall i: nat | j <= i <= n + 1
        ensures HeldAt(cfg, steps, p, i)
      {
        assert i <= n || i == n + 1;
      }
    }
  }

  lemma NotHeldNotCrossed(cfg: Config, steps: seq<Step>, p: Path, j: nat)
    requires Possible(cfg, START, steps) && |steps| > 0 && !Holds(Final(cfg, START, steps[..|steps|-1]), p)
    ensures !Crossed(cfg, steps, p, j, |steps|)
  {
    hide Resets, Holds, Final, At;
    EarlierIsSame(cfg, steps, |steps| - 1);
    assert !HeldAt(cfg, steps, p, |steps| - 1);
  }

  lemma HoldingStep(cfg: Config, s: System, l: Ledger, step: Step, p: Path)
    requires Enabled(s, step) && Holds(s, p) && Holds(Next(cfg, s, step), p)
    ensures Record(cfg, s, l, step).crossed <==> l.crossed || p in Resets(s, step)
  {
  }

  lemma ReadStarts(cfg: Config, s: System, step: Step, p: Path)
    requires Enabled(s, step) && !Holds(s, p) && Holds(Next(cfg, s, step), p)
    ensures step == ReadStep
  {
  }

  // ----- what `attempts` counts ------------------------------------------------------------

  /** What the worker holds just before step `k`. */
  function HeldCount(cfg: Config, steps: seq<Step>, k: nat): nat {
    if k <= |steps| && At(cfg, steps, k).worker.Holding? then At(cfg, steps, k).worker.attempts else 0
  }

  /** `stale` is the count that the last crossing wrote, and nothing else. */
  ghost predicate StaleOk(cfg: Config, steps: seq<Step>, p: Path, stale: nat) {
    && (forall j: nat, k: nat | LastCrossing(cfg, steps, p, j, k) :: stale == HeldCount(cfg, steps, k))
    && (stale > 0 ==> exists j: nat, k: nat :: LastCrossing(cfg, steps, p, j, k))
  }

  lemma {:induction false} StaleIsCrossing(cfg: Config, steps: seq<Step>, p: Path)
    requires Possible(cfg, START, steps)
    ensures StaleOk(cfg, steps, p, Acct(Books(cfg, START, steps), p).stale)
  {
    hide StaleOk, At, LastCrossing, Record, Next, Enabled, Holds, Resets, Inv;
    if steps == [] {
      NoStepNoCrossing(cfg, p);
    } else {
      var n := |steps| - 1;
      var before, step := steps[..n], steps[n];
      var s, l := Final(cfg, START, before), Books(cfg, START, before);
      StaleIsCrossing(cfg, before, p);
      RunKeeps(cfg, before);
      if p in Resets(s, step) {
        ResetClears(cfg, s, l, step, p);
        ResetEnds(cfg, steps, p);
      } else if step == WriteStep && Holds(s, p) && p in s.q.rows && l.crossed {
        CrossedIsCrossed(cfg, before, p);
        CrossingWrites(cfg, s, l, p);
        CrossingIsLast(cfg, steps, p);
      } else {
        if step == WriteStep && Holds(s, p) { CrossedIsCrossed(cfg, before, p); }
        OtherwiseKept(cfg, s, l, step, p);
        NoNewCrossing(cfg, steps, p, Acct(l, p).stale);
      }
    }
  }

  lemma NoStepNoCrossing(cfg: Config, p: Path)
    ensures StaleOk(cfg, [], p, 0)
  {
  }

  lemma ResetClears(cfg: Config, s: System, l: Ledger, step: Step, p: Path)
    requires Enabled(s, step) && p in Resets(s, step)
    ensures Acct(Record(cfg, s, l, step), p) == NOTHING
  {
  }

  lemma ResetEnds(cfg: Config, steps: seq<Step>, p: Path)
    requires Possible(cfg, START, steps) && steps != []
    requires p in Resets(Final(cfg, START, steps[..|steps|-1]), steps[|steps|-1])
    ensures StaleOk(cfg, steps, p, 0)
  {
    hide At, Crossed;
    var n := |steps| - 1;
    EarlierIsSame(cfg, steps, n);
    assert ResetAt(cfg, steps, p, n);
    forall j: nat, k: nat
      ensures !LastCrossing(cfg, steps, p, j, k)
    {
      if k == n { WriteResetsNothing(At(cfg, steps, n)); }
    }
  }

  lemma WriteResetsNothing(s: System)
    ensures Resets(s, WriteStep) == {}
  {
  }

  lemma CrossingWrites(cfg: Config, s: System, l: Ledger, p: Path)
    requires Inv(s, l) && Enabled(s, WriteStep) && Holds(s, p) && p in s.q.rows && l.crossed
    ensures Acct(Record(cfg, s, l, WriteStep), p).stale == s.worker.attempts
  {
  }

  lemma CrossingIsLast(cfg: Config, steps: seq<Step>, p: Path)
    requires Possible(cfg, START, steps) && steps != [] && steps[|steps|-1] == WriteStep
    requires var s := Final(cfg, START, steps[..|steps|-1]); Holds(s, p) && p in s.q.rows
    requires HeldCrossed(cfg, steps[..|steps|-1], p)
    ensures StaleOk(cfg, steps, p, Final(cfg, START, steps[..|steps|-1]).worker.attempts)
  {
    hide At, Crossed, Resets;
    var n := |steps| - 1;
    EarlierIsSame(cfg, steps, n);
    var j: nat :| Crossed(cfg, steps[..n], p, j, n);
    CrossedEarlier(cfg, steps, p, j, n);
    assert CrossedWrite(cfg, steps, p, j, n);
    WriteResetsNothing(At(cfg, steps, n));
    assert LastCrossing(cfg, steps, p, j, n);
    forall i: nat, k: nat | LastCrossing(cfg, steps, p, i, k)
      ensures k == n
    {
      OneHoldOneWrite(cfg, steps, p, i, k, j, n);
    }
  }

  /** A write ends the hold: what was held from a later reset on was not written in between. */
  lemma OneHoldOneWrite(cfg: Config, steps: seq<Step>, p: Path, i: nat, k: nat, j: nat, n: nat)
    requires Possible(cfg, START, steps)
    requires LastCrossing(cfg, steps, p, i, k) && Crossed(cfg, steps, p, j, n) && n <= |steps|
    ensures n <= k
  {
    hide At, Final, Resets;
    assert ResetAt(cfg, steps, p, j);
    assert j <= k;
    WriteReleases(cfg, steps, k);
    assert !HeldAt(cfg, steps, p, k + 1);
  }

  lemma WriteReleases(cfg: Config, steps: seq<Step>, k: nat)
    requires Possible(cfg, START, steps) && k < |steps| && steps[k] == WriteStep
    ensures At(cfg, steps, k + 1).worker.Idle?
  {
    PrefixIsPossible(cfg, START, steps, k + 1);
    assert steps[..k+1][..k] == steps[..k];
  }

  lemma OtherwiseKept(cfg: Config, s: System, l: Ledger, step: Step, p: Path)
    requires Enabled(s, step) && p !in Resets(s, step)
    requires !(step == WriteStep && Holds(s, p) && p in s.q.rows && l.crossed)
    ensures Acct(Record(cfg, s, l, step), p).stale == Acct(l, p).stale
  {
  }

  lemma NoNewCrossing(cfg: Config, steps: seq<Step>, p: Path, stale: nat)
    requires Possible(cfg, START, steps) && steps != [] && StaleOk(cfg, steps[..|steps|-1], p, stale)
    requires var s, step := Final(cfg, START, steps[..|steps|-1]), steps[|steps|-1];
      && p !in Resets(s, step)
      && (step == WriteStep && Holds(s, p) && p in s.q.rows ==> !HeldCrossed(cfg, steps[..|steps|-1], p))
    ensures StaleOk(cfg, steps, p, stale)
  {
    hide At, Crossed, Resets, Final, LastCrossing, Holds;
    var n := |steps| - 1;
    var before := steps[..n];
    EarlierIsSame(cfg, steps, n);
    forall j: nat, k: nat
      ensures LastCrossing(cfg, steps, p, j, k) <==> LastCrossing(cfg, before, p, j, k)
      ensures LastCrossing(cfg, steps, p, j, k) ==> HeldCount(cfg, steps, k) == HeldCount(cfg, before, k)
    {
      if k < n {
        LastCrossingEarlier(cfg, steps, p, j, k);
        EarlierIsSame(cfg, steps, k);
      } else {
        NotLastHere(cfg, steps, p, j, k);
      }
    }
  }

  lemma NotLastHere(cfg: Config, steps: seq<Step>, p: Path, j: nat, k: nat)
    requires Possible(cfg, START, steps) && k >= |steps| - 1 >= 0
    requires var s, step := Final(cfg, START, steps[..|steps|-1]), steps[|steps|-1];
      step == WriteStep && Holds(s, p) && p in s.q.rows ==> !Crossed(cfg, steps[..|steps|-1], p, j, |steps| - 1)
    ensures !LastCrossing(cfg, steps, p, j, k) && !LastCrossing(cfg, steps[..|steps|-1], p, j, k)
  {
    hide At, Resets, Final, Holds;
    var n := |steps| - 1;
    EarlierIsSame(cfg, steps, n);
    CrossedEarlier(cfg, steps, p, j, n);
    if Crossed(cfg, steps, p, j, n) { assert HeldAt(cfg, steps, p, n); }
  }

  /**
   * In every run, a queued row's `attempts` is the failures and deaths charged to it since
   * its last reset, plus one while its charge is open, plus what an outcome method read
   * before that reset and wrote after it. It is the charges alone exactly when no such
   * write put a count above zero there.
   */
  lemma AttemptsAreCounted(cfg: Config, steps: seq<Step>, p: Path)
    requires Possible(cfg, START, steps)
    requires p in Final(cfg, START, steps).q.rows && Final(cfg, START, steps).q.rows[p].status == Queued
    ensures var attempts, a := Final(cfg, START, steps).q.rows[p].attempts, Acct(Books(cfg, START, steps), p);
      var charged := a.charges + if a.open then 1 else 0;
      && (attempts == charged <==>
            forall j: nat, k: nat | LastCrossing(cfg, steps, p, j, k) :: HeldCount(cfg, steps, k) == 0)
      && (forall j: nat, k: nat | LastCrossing(cfg, steps, p, j, k) :: attempts == charged + HeldCount(cfg, steps, k))
  {
    hide At, LastCrossing, HeldCount;
    RunKeeps(cfg, steps);
    StaleIsCrossing(cfg, steps, p);
    assert RowOk(Final(cfg, START, steps), Books(cfg, START, steps), p);
  }

  /** A death charges the row in flight, by one, or nothing. */
  lemma DeathChargesAtMostOne(cfg: Config, steps: seq<Step>, p: Path)
    requires Possible(cfg, START, steps)
    ensures var s, l := Final(cfg, START, steps), Books(cfg, START, steps);
      var charged := Acct(Record(cfg, s, l, DeathStep), p).charges - Acct(l, p).charges;
      charged == 0 || (charged == 1 && s.q.inFlight == Some(p))
  {
    RunKeeps(cfg, steps);
    var s, l := Final(cfg, START, steps), Books(cfg, START, steps);
    if p in s.q.rows { assert RowOk(s, l, p); }
  }

  /**
   * A deferral charges nothing: its write leaves the row with the charges recorded before
   * it, plus, exactly if a reset crossed it, the count it read before the reset.
   */
  lemma DeferChargesNone(cfg: Config, steps: seq<Step>, p: Path)
    requires Possible(cfg, START, steps)
    requires Holds(Final(cfg, START, steps), p) && Final(cfg, START, steps).worker.outcome.Deferred?
    ensures var s, l := Final(cfg, START, steps), Books(cfg, START, steps);
      var o, crossed := s.worker.outcome, HeldCrossed(cfg, steps, p);
      var stale := if crossed then s.worker.attempts else Acct(l, p).stale;
      && (crossed ==> Acct(l, p).charges == 0)
      && Acct(Record(cfg, s, l, WriteStep), p).charges == Acct(l, p).charges
      && (p in s.q.rows ==>
            Next(cfg, s, WriteStep).q.rows[p] ==
            Row(Queued, Acct(l, p).charges + stale, Some(Named(o.stage)), Some(o.cls), o.due))
  {
    RunKeeps(cfg, steps);
    CrossedIsCrossed(cfg, steps, p);
    var s, l := Final(cfg, START, steps), Books(cfg, START, steps);
    if p in s.q.rows { assert RowOk(s, l, p); }
  }

  /** Inside the caller's transaction nothing can cross it: the row keeps what it had, less the open charge. */
  lemma DeferInTransactionChargesNone(cfg: Config, steps: seq<Step>, p: Path, stage: string, cls: ErrorClass, due: int)
    requires Possible(cfg, START, steps) && Enabled(Final(cfg, START, steps), DeferInTxStep(p, stage, cls, due))
    ensures var s, a := Final(cfg, START, steps), Acct(Books(cfg, START, steps), p);
      p in s.q.rows ==>
      Next(cfg, s, DeferInTxStep(p, stage, cls, due)).q.rows[p] ==
      Row(Queued, a.charges + a.stale, Some(Named(stage)), Some(cls), due)
  {
    RunKeeps(cfg, steps);
    var s := Final(cfg, START, steps);
    if p in s.q.rows { assert RowOk(s, Books(cfg, START, steps), p); }
  }

  /** A re-enqueue while the path is in flight resets the charge, and ending the step then refunds nothing. */
  lemma ReenqueueIsNotRefunded(s: State, p: Path, due: int)
    ensures Settle(Enqueue(s, p, due), p).rows[p] == FreshRow(due)
    ensures forall paths, now: int | p !in s.rows && p in paths ::
        Settle(EnqueueAbsent(s, paths, now), p).rows[p] == FreshRow(now)
  {
  }

  // ----- an outcome raced by a re-enqueue ------------------------------------------------

  /** One re-enqueue of `p`, before this process's commit `at`. */
  function ReenqueueAt(p: Path, due: int, at: nat): Others {
    (n: nat, rows: map<Path, Row>) => if n == at then rows[p := FreshRow(due)] else rows
  }

  /** What a re-enqueue and an outcome come to in one order or the other. */
  predicate SomeOrder(cfg: Config, s: State, p: Path, o: Outcome, due: int, end: State) {
    var alone: Others := (_, rows) => rows;
    || end == Conclude(cfg, Enqueue(s, p, due), p, o, alone, 0)
    || end == Enqueue(Conclude(cfg, s, p, o, alone, 0), p, due)
  }

  /**
   * A re-enqueue between an outcome's settling and its read, or between settling and a
   * write that reads nothing, comes to one of the two orders; between the read and the
   * write it does so exactly when the count read is zero.
   */
  lemma RacedOutcome(cfg: Config, s: State, p: Path, o: Outcome, due: int)
    requires p in s.rows
    ensures SomeOrder(cfg, s, p, o, due, Conclude(cfg, s, p, o, ReenqueueAt(p, due, 0), 0))
    ensures o.Reads() ==>
              (SomeOrder(cfg, s, p, o, due, Conclude(cfg, s, p, o, ReenqueueAt(p, due, 1), 0))
               <==> Settle(s, p).rows[p].attempts == 0)
  {
    if o.Reads() {
      var raced := Conclude(cfg, s, p, o, ReenqueueAt(p, due, 1), 0);
      var read := Settle(s, p).rows[p].attempts;
      assert raced.rows[p].attempts == if o.Failed? then read + 1 else read;
      assert raced.rows[p].stage == Some(Named(o.stage));
      if read == 0 {
        assert raced == Conclude(cfg, Enqueue(s, p, due), p, o, (_, rows) => rows, 0);
      }
    }
  }

  /** A run that stands where `p`'s row, charge, worker and account are as given, with `p` claimed. */
  ghost predicate Stands(cfg: Config, steps: seq<Step>, p: Path, row: Row, inFlight: Option<Path>, worker: Worker,
                         a: Account) {
    && Possible(cfg, START, steps)
    && var s, l := Final(cfg, START, steps), Books(cfg, START, steps);
       && s.q.rows == map[p := row] && s.q.inFlight == inFlight && s.worker == worker && Acct(l, p) == a
  }

  lemma Extend(cfg: Config, steps: seq<Step>, step: Step)
    requires Possible(cfg, START, steps) && Enabled(Final(cfg, START, steps), step)
    ensures var longer := steps + [step];
      && Possible(cfg, START, longer)
      && Final(cfg, START, longer) == Next(cfg, Final(cfg, START, steps), step)
      && Books(cfg, START, longer) == Record(cfg, Final(cfg, START, steps), Books(cfg, START, steps), step)
  {
    assert (steps + [step])[..|steps + [step]| - 1] == steps;
  }

  /** An attempt up to the read of its outcome: the count held is the one the begin found. */
  lemma Attempt(cfg: Config, steps: seq<Step>, p: Path, row: Row, charges: nat, o: Outcome)
    returns (longer: seq<Step>)
    requires Stands(cfg, steps, p, row, None, Idle, Account(charges, false, 0))
    requires row.status == Queued && row.stage != Some(Interrupted) && row.attempts == charges && o.Reads()
    ensures longer == steps + [ClaimStep({p}), BeginStep(p), SettleStep(p, o), ReadStep]
    ensures Stands(cfg, longer, p, row.(stage := None), None, Holding(p, charges, o), Account(charges, false, 0))
    ensures !Books(cfg, START, longer).crossed && Books(cfg, START, longer).read == charges
  {
    hide Possible, Final, Books;
    Extend(cfg, steps, ClaimStep({p}));
    longer := steps + [ClaimStep({p})];
    Extend(cfg, longer, BeginStep(p));
    longer := longer + [BeginStep(p)];
    assert Stands(cfg, longer, p, Charged(row), Some(p), Idle, Account(charges, true, 0));
    Extend(cfg, longer, SettleStep(p, o));
    longer := longer + [SettleStep(p, o)];
    assert Stands(cfg, longer, p, row.(stage := None), None, Settling(p, o), Account(charges, false, 0));
    Extend(cfg, longer, ReadStep);
    longer := longer + [ReadStep];
  }

  /** A failed attempt, then another whose outcome is crossed by a re-enqueue of the path. */
  function CrossedRun(p: Path, o: Outcome): seq<Step> {
    [EnqueueStep(p, 0), ClaimStep({p}), BeginStep(p), SettleStep(p, Failed("embed", 0)), ReadStep, WriteStep,
     ClaimStep({p}), BeginStep(p), SettleStep(p, o), ReadStep, EnqueueStep(p, 0), WriteStep]
  }

  /**
   * The run the count does not survive: the path is enqueued afresh, yet its row is left
   * with the attempt from before, and is dead-lettered for it when two are allowed.
   */
  lemma FreshRowIsCharged(cfg: Config, p: Path, o: Outcome)
    requires cfg.maxAttempts >= 2 && o.Reads()
    ensures var run := CrossedRun(p, o);
      && Possible(cfg, START, run)
      && var s, a := Final(cfg, START, run), Acct(Books(cfg, START, run), p);
         && p in s.q.rows && a.charges == (if o.Failed? then 1 else 0) && !a.open
         && s.q.rows[p].attempts == a.charges + 1
         && (s.q.rows[p].status == Dead <==> o.Failed? && cfg.maxAttempts == 2)
  {
    hide Stands, Possible, Final, Books, Next, Record, Enabled, Acct;
    var run := FirstFailure(cfg, p);
    run := Attempt(cfg, run, p, FailedOnce(cfg), 1, o);
    run := Overwritten(cfg, run, p, FailedOnce(cfg).(stage := None), o);
    assert run == CrossedRun(p, o);
  }

  function FailedOnce(cfg: Config): Row {
    Row(Queued, 1, Some(Named("embed")), Some(Retryable), Backoff(cfg.baseBackoff, 0))
  }

  lemma FirstFailure(cfg: Config, p: Path) returns (run: seq<Step>)
    requires cfg.maxAttempts >= 2
    ensures run == [EnqueueStep(p, 0), ClaimStep({p}), BeginStep(p), SettleStep(p, Failed("embed", 0)),
                    ReadStep, WriteStep]
    ensures Stands(cfg, run, p, FailedOnce(cfg), None, Idle, Account(1, false, 0))
  {
    hide Possible, Final, Books;
    assert Possible(cfg, START, []) && Final(cfg, START, []) == START
           && Books(cfg, START, []) == EMPTY by { Nothing(cfg); }
    Extend(cfg, [], EnqueueStep(p, 0));
    run := [] + [EnqueueStep(p, 0)];
    assert Stands(cfg, run, p, FreshRow(0), None, Idle, NOTHING);
    run := Attempt(cfg, run, p, FreshRow(0), 0, Failed("embed", 0));
    Extend(cfg, run, WriteStep);
    run := run + [WriteStep];
  }

  lemma Nothing(cfg: Config)
    ensures Possible(cfg, START, []) && Final(cfg, START, []) == START && Books(cfg, START, []) == EMPTY
  {
  }

  lemma Overwritten(cfg: Config, steps: seq<Step>, p: Path, row: Row, o: Outcome) returns (longer: seq<Step>)
    requires Stands(cfg, steps, p, row, None, Holding(p, 1, o), Account(1, false, 0))
    requires !Books(cfg, START, steps).crossed && Books(cfg, START, steps).read == 1 && o.Reads()
    ensures longer == steps + [EnqueueStep(p, 0), WriteStep] && Possible(cfg, START, longer)
    ensures var s, a := Final(cfg, START, longer), Acct(Books(cfg, START, longer), p);
      && p in s.q.rows && a == Account(if o.Failed? then 1 else 0, false, 1)
      && s.q.rows[p].attempts == a.charges + 1
      && (s.q.rows[p].status == Dead <==> o.Failed? && 2 >= cfg.maxAttempts)
  {
    hide Possible, Final, Books;
    Extend(cfg, steps, EnqueueStep(p, 0));
    longer := steps + [EnqueueStep(p, 0)];
    assert Stands(cfg, longer, p, FreshRow(0), None, Holding(p, 1, o), NOTHING);
    Extend(cfg, longer, WriteStep);
    longer := longer + [WriteStep];
  }

  /**
   * The refund matches the charge exactly when the row begun was not a marked dead one:
   * `begin_attempt` charges only queued rows, but the refund does not look at the status.
   */
  lemma BeginThenEnd(cfg: Config, s: State, p: Path)
    requires p in s.rows && BeginRuns(cfg, s, p)
    ensures Settle(Begin(cfg, s, p), p).rows[p].attempts == s.rows[p].attempts
      <==> !(s.rows[p].status == Dead && Refundable(s, p))
  {
  }

  /** No run of the worker gets there: it begins rows it claimed, and a claimed row stays queued. */
  lemma WorkerIsRefunded(cfg: Config, steps: seq<Step>, p: Path)
    requires Possible(cfg, START, steps) && Enabled(Final(cfg, START, steps), BeginStep(p))
    requires BeginRuns(cfg, Final(cfg, START, steps).q, p)
    ensures var s := Final(cfg, START, steps);
      var t := Next(cfg, s, BeginStep(p));
      && Enabled(t, EndStep(p))
      && var end := Next(cfg, t, EndStep(p));
         && (p in end.q.rows <==> p in s.q.rows)
         && (p in s.q.rows ==> end.q.rows[p].attempts == s.q.rows[p].attempts)
  {
    RunKeeps(cfg, steps);
    var s := Final(cfg, START, steps);
    if p in s.q.rows { assert RowOk(s, Books(cfg, START, steps), p); }
  }

  // ----- a message that kills every run ------------------------------------------------

  /** The step leaves `p`'s row to `Begin` and death: nothing settles, resets or removes it. */
  predicate Spares(step: Step, p: Path) {
    match step
    case EnqueueStep(q, _) => q != p
    case EndStep(q) => q != p
    case ReleaseStep(q) => q != p
    case MarkStep(paths) => p !in paths
    case SettleStep(q, _) => q != p
    case DeferInTxStep(q, _, _, _) => q != p
    case RequeueStep(_, _) => false
    case UnmarkStep(paths) => p !in paths
    case _ => true
  }

  function Begins(steps: seq<Step>, p: Path): nat {
    if steps == [] then 0
    else Begins(steps[..|steps|-1], p) + if steps[|steps|-1] == BeginStep(p) then 1 else 0
  }

  /** Deaths while `p` was in flight. */
  function Deaths(cfg: Config, start: System, steps: seq<Step>, p: Path): nat
    requires Possible(cfg, start, steps)
  {
    if steps == [] then 0
    else
      var before := steps[..|steps|-1];
      Deaths(cfg, start, before, p)
      + if steps[|steps|-1] == DeathStep && Final(cfg, start, before).q.inFlight == Some(p) then 1 else 0
  }

  ghost predicate FreshIn(s: System, p: Path) {
    && p in s.q.rows && s.q.rows[p].status == Queued && s.q.rows[p].attempts == 0
    && s.q.inFlight != Some(p) && (!s.worker.Idle? ==> s.worker.path != p)
    && (forall q | q in s.claimed && q in s.q.rows :: s.q.rows[q].status == Queued)
  }

  ghost predicate Killing(cfg: Config, s: System, p: Path, begins: nat, deaths: nat) {
    && p in s.q.rows && (!s.worker.Idle? ==> s.worker.path != p)
    && (forall q | q in s.claimed && q in s.q.rows :: s.q.rows[q].status == Queued)
    && deaths <= cfg.maxAttempts
    && if begins <= cfg.maxAttempts then
         && s.q.rows[p].status == Queued && s.q.rows[p].attempts == begins
         && (begins > 0 ==> s.q.rows[p].stage == Some(Interrupted))
         && begins == deaths + (if s.q.inFlight == Some(p) then 1 else 0)
       else
         && begins == cfg.maxAttempts + 1 && deaths == cfg.maxAttempts
         && s.q.rows[p].status == Dead && s.q.inFlight != Some(p)
  }

  lemma KillingStep(cfg: Config, s: System, p: Path, begins: nat, deaths: nat, step: Step)
    requires cfg.Valid() && Killing(cfg, s, p, begins, deaths) && Enabled(s, step) && Spares(step, p)
    ensures Killing(cfg, Next(cfg, s, step), p,
                    begins + (if step == BeginStep(p) then 1 else 0),
                    deaths + (if step == DeathStep && s.q.inFlight == Some(p) then 1 else 0))
  {
  }

  lemma {:induction false} KillingRun(cfg: Config, start: System, steps: seq<Step>, p: Path)
    requires cfg.Valid() && FreshIn(start, p) && Possible(cfg, start, steps) && forall i | 0 <= i < |steps| ::
            Spares(steps[i], p)
    ensures Killing(cfg, Final(cfg, start, steps), p, Begins(steps, p), Deaths(cfg, start, steps, p))
  {
    if steps != [] {
      var before := steps[..|steps|-1];
      KillingRun(cfg, start, before, p);
      KillingStep(cfg, Final(cfg, start, before), p, Begins(before, p), Deaths(cfg, start, before, p),
                  steps[|steps|-1]);
    }
  }

  /**
   * A message whose step never returns: whatever else the queue does meanwhile, its row
   * is dead-lettered exactly after `maxAttempts` deaths, at the begin that follows them.
   */
  lemma KillerIsDeadLettered(cfg: Config, start: System, steps: seq<Step>, p: Path)
    requires cfg.Valid() && FreshIn(start, p) && Possible(cfg, start, steps) && forall i | 0 <= i < |steps| ::
            Spares(steps[i], p)
    ensures var s, deaths := Final(cfg, start, steps), Deaths(cfg, start, steps, p);
      && p in s.q.rows && deaths <= cfg.maxAttempts
      && (s.q.rows[p].status == Dead <==> Begins(steps, p) > cfg.maxAttempts)
      && (s.q.rows[p].status == Dead ==> deaths == cfg.maxAttempts)
      && (s.q.rows[p].status == Queued && deaths == cfg.maxAttempts ==> !BeginRuns(cfg, s.q, p))
  {
    KillingRun(cfg, start, steps, p);
  }
}
