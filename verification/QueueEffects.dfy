/**
 * What each commit leaves in the rows, and what a terminal outcome keeps: the rows that a
 * step does not name stay, and a row that was given up stays given up until it is reset.
 */
module QueueEffects {
  import opened Wrappers
  import opened Queue
  import opened QueueRuns

  const SIX_HOURS := 21600

  /** Every row but these is as it was. */
  ghost predicate SameBut(before: map<Path, Row>, after: map<Path, Row>, paths: set<Path>) {
    forall q | q !in paths :: (q in after <==> q in before) && (q in before ==> after[q] == before[q])
  }

  /** What the last commit of an outcome leaves; `read` is the count read for it. */
  ghost predicate Concluded(cfg: Config, before: map<Path, Row>, after: map<Path, Row>, path: Path, read: nat,
                            o: Outcome) {
    && SameBut(before, after, {path})
    && match o
       case Succeeded => path !in after
       case Terminal(stage) =>
         && (path in after <==> path in before)
         && (path in after ==> after[path] == Row(Dead, 1, Some(Named(stage)), Some(Permanent), before[path].due))
       case Failed(stage, now) =>
         && (path in after <==> path in before)
         && (path in after ==> FailedRow(cfg, before[path], after[path], read, stage, now))
       case Deferred(stage, cls, due) =>
         && (path in after <==> path in before)
         && (path in after ==> after[path] == Row(Queued, read, Some(Named(stage)), Some(cls), due))
  }

  /** One failure more: dead when that makes the most allowed, else due again after the backoff. */
  ghost predicate FailedRow(cfg: Config, before: Row, after: Row, read: nat, stage: string, now: int) {
    && after.attempts == read + 1 && after.stage == Some(Named(stage)) && after.errorClass == Some(Retryable)
    && (after.status == Dead <==> read + 1 >= cfg.maxAttempts)
    && after.due == if read + 1 >= cfg.maxAttempts then before.due else now + Wait(cfg.baseBackoff, read)
  }

  /** The wait after `n` earlier attempts: the base, doubled each time, up to six hours. */
  function Wait(base: nat, n: nat): (wait: nat)
    ensures wait <= SIX_HOURS
    decreases n
  {
    if base >= SIX_HOURS then SIX_HOURS
    else if n == 0 then base
    else Wait(base + base, n - 1)
  }

  lemma {:induction false} BackoffIsWait(base: nat, n: nat)
    ensures Backoff(base, n) == Wait(base, n)
    decreases n
  {
    if n > 0 {
      BackoffIsWait(base + base, n - 1);
      assert base * Power2(n) == (base + base) * Power2(n - 1);
      if base >= SIX_HOURS {
        PowerIsPositive(n);
        assert base * Power2(n) >= base;
      }
    }
  }

  lemma {:induction false} PowerIsPositive(n: nat)
    ensures Power2(n) >= 1
  {
    if n > 0 { PowerIsPositive(n - 1); }
  }

  // ----- outcomes -----------------------------------------------------------------------------

  lemma WriteConcludes(cfg: Config, s: State, path: Path, read: nat, o: Outcome)
    ensures Concluded(cfg, s.rows, Write(cfg, s, path, read, o).rows, path, read, o)
    ensures Write(cfg, s, path, read, o).inFlight == s.inFlight
  {
    hide Backoff, Wait;
    BackoffIsWait(cfg.baseBackoff, read);
  }

  /** What settling leaves: the open charge of that path given back, if its mark is still there. */
  ghost predicate Settled(before: State, after: State, path: Path) {
    if before.inFlight == Some(path) then
      && after.inFlight.None? && SameBut(before.rows, after.rows, {path})
      && (path in after.rows <==> path in before.rows)
      && (path in before.rows ==>
            var r := before.rows[path];
            after.rows[path] ==
            if r.stage == Some(Interrupted) && r.attempts > 0 then r.(attempts := r.attempts - 1, stage := None) else r)
    else after == before
  }

  lemma SettleSettles(s: State, path: Path)
    ensures Settled(s, Settle(s, path), path)
  {
  }

  /**
   * An outcome method: it settles, reads the count unless none is needed, and concludes;
   * others commit after the first and before the last of these. Without a row to read it
   * writes nothing.
   */
  lemma OutcomeConcludes(cfg: Config, s: State, path: Path, o: Outcome, others: Others, n: nat)
    returns (settled: State)
    ensures Settled(s, settled, path)
    ensures var after, first := Conclude(cfg, s, path, o, others, n), others(n, settled.rows);
      && after.inFlight == settled.inFlight
      && match o
         case Succeeded => Concluded(cfg, first, after.rows, path, 0, o)
         case Terminal(_) => Concluded(cfg, first, after.rows, path, 0, o)
         case _ =>
           if path in first then Concluded(cfg, others(n + 1, first), after.rows, path, first[path].attempts, o)
           else after.rows == first
  {
    hide Write, Concluded, Settle;
    settled := Settle(s, path);
    SettleSettles(s, path);
    var first := After(others, n, settled);
    WriteConcludes(cfg, first, path, 0, o);
    if path in first.rows {
      WriteConcludes(cfg, After(others, n + 1, first), path, first.rows[path].attempts, o);
    }
  }

  /** In every run, what the write of the outcome under way leaves, with the count the worker holds. */
  lemma WriteLeaves(cfg: Config, steps: seq<Step>)
    requires Possible(cfg, START, steps) && Enabled(Final(cfg, START, steps), WriteStep)
    ensures var s := Final(cfg, START, steps); var t := Next(cfg, s, WriteStep);
      && Concluded(cfg, s.q.rows, t.q.rows, s.worker.path, if s.worker.Holding? then s.worker.attempts else 0,
                   s.worker.outcome)
      && t.q.inFlight == s.q.inFlight && t.worker.Idle? && t.claimed == s.claimed - {s.worker.path}
  {
    hide Write, Concluded;
    var s := Final(cfg, START, steps);
    WriteConcludes(cfg, s.q, s.worker.path, if s.worker.Holding? then s.worker.attempts else 0, s.worker.outcome);
  }

  // ----- the other steps --------------------------------------------------------------------------

  /** What each step but those of an outcome leaves in the rows, and which charge is open then. */
  ghost predicate Leaves(cfg: Config, s: System, step: Step, t: System) {
    var b, a := s.q.rows, t.q.rows;
    match step
    case EnqueueStep(p, due) =>
      SameBut(b, a, {p}) && p in a && a[p] == Row(Queued, 0, None, None, due) && t.q.inFlight == s.q.inFlight
    case AbsentStep(paths, now) =>
      && SameBut(b, a, paths - b.Keys) && t.q.inFlight == s.q.inFlight
      && forall p | p in paths && p !in b :: p in a && a[p] == Row(Queued, 0, None, None, now)
    case ClaimStep(paths) => t == s.(claimed := s.claimed + paths)
    case BeginStep(p) =>
      && SameBut(b, a, {p}) && (p in a <==> p in b)
      && (if p in b && b[p].status == Queued && b[p].stage == Some(Interrupted) && b[p].attempts >= cfg.maxAttempts
          then a[p] == b[p].(status := Dead, errorClass := Some(Retryable))
               && t.q.inFlight == s.q.inFlight && t.claimed == s.claimed - {p}
          else
            && t.q.inFlight == Some(p) && t.claimed == s.claimed
            && (p in b ==>
                  a[p] == if b[p].status == Queued then b[p].(attempts := b[p].attempts + 1, stage := Some(Interrupted))
                          else b[p]))
    case EndStep(p) => Settled(s.q, t.q, p)
    case ReleaseStep(p) => a == b && t.q.inFlight == if s.q.inFlight == Some(p) then None else s.q.inFlight
    case MarkStep(paths) =>
      && SameBut(b, a, paths) && t.q.inFlight == s.q.inFlight
      && forall p | p in paths ::
           && (p in a <==> p in b)
           && (p in b ==> a[p] == if b[p].status == Queued then b[p].(stage := Some(Interrupted)) else b[p])
    case SettleStep(p, o) => Settled(s.q, t.q, p) && t.worker == Settling(p, o)
    case ReadStep =>
      && t.q == s.q && !s.worker.Idle?
      && t.worker == if s.worker.path in b then Holding(s.worker.path, b[s.worker.path].attempts, s.worker.outcome)
                     else Idle
    case DeferInTxStep(p, stage, cls, due) =>
      && SameBut(b, a, {p}) && (p in a <==> p in b) && t.q.inFlight == s.q.inFlight
      && (p in b ==>
            var refund := s.q.inFlight == Some(p) && b[p].stage == Some(Interrupted) && b[p].attempts > 0;
            a[p] == Row(Queued, if refund
                        then b[p].attempts - 1 else b[p].attempts, Some(Named(stage)), Some(cls), due))
    case RequeueStep(filter, now) =>
      && t.q.inFlight == s.q.inFlight
      && forall p ::
           && (p in a <==> p in b)
           && (p in b ==>
                 a[p] == if b[p].status == Dead && (filter.None? || b[p].errorClass == filter)
                         then b[p].(status := Queued, attempts := 0, errorClass := None, due := now) else b[p])
    case UnmarkStep(paths) => SameBut(b, a, paths) && a.Keys !! paths && t.q.inFlight == s.q.inFlight
    case DeathStep => a == b && t.q.inFlight.None? && t.claimed == {} && t.worker.Idle?
    case WriteStep => true
  }

  lemma StepLeaves(cfg: Config, s: System, step: Step)
    requires Enabled(s, step)
    ensures Leaves(cfg, s, step, Next(cfg, s, step))
  {
    hide Settle, Settled, Write;
    match step
    case EndStep(p) => SettleSettles(s.q, p);
    case SettleStep(p, _) => SettleSettles(s.q, p);
    case _ =>
  }

  // ----- a terminal outcome is final ------------------------------------------------------------------

  /** The step enqueues the path, requeues its row or removes it. */
  predicate Revives(step: Step, p: Path, cls: Option<ErrorClass>) {
    match step
    case EnqueueStep(q, _) => q == p
    case RequeueStep(filter, _) => filter.None? || filter == cls
    case UnmarkStep(paths) => p in paths
    case _ => false
  }

  /** A dead row that no one revives stays as it is, and is never claimed. */
  lemma {:induction false} DeadStaysDead(cfg: Config, steps: seq<Step>, n: nat, p: Path)
    requires Possible(cfg, START, steps) && n <= |steps|
    requires Possible(cfg, START, steps[..n])
    requires var s := Final(cfg, START, steps[..n]); p in s.q.rows && s.q.rows[p].status == Dead
    requires var cls := Final(cfg, START, steps[..n]).q.rows[p].errorClass;
      forall i | n <= i < |steps| :: !Revives(steps[i], p, cls)
    ensures var s, t := Final(cfg, START, steps[..n]), Final(cfg, START, steps);
      p in t.q.rows && t.q.rows[p] == s.q.rows[p] && p !in t.claimed
  {
    hide Inv, Next, Enabled;
    RunKeeps(cfg, steps);
    if n == |steps| {
      assert steps[..n] == steps;
      DeadIsUnclaimed(Final(cfg, START, steps), Books(cfg, START, steps), p);
    } else {
      var before, last := steps[..|steps|-1], steps[|steps|-1];
      assert before[..n] == steps[..n];
      DeadStaysDead(cfg, before, n, p);
      RunKeeps(cfg, before);
      DeadStep(cfg, Final(cfg, START, before), Books(cfg, START, before), last, p);
      DeadIsUnclaimed(Final(cfg, START, steps), Books(cfg, START, steps), p);
    }
  }

  lemma DeadIsUnclaimed(s: System, l: Ledger, p: Path)
    requires Inv(s, l) && p in s.q.rows && s.q.rows[p].status == Dead
    ensures p !in s.claimed
  {
    hide WorkerOk;
    assert RowOk(s, l, p);
  }

  lemma DeadStep(cfg: Config, s: System, l: Ledger, step: Step, p: Path)
    requires Inv(s, l) && Enabled(s, step) && p in s.q.rows && s.q.rows[p].status == Dead
    requires !Revives(step, p, s.q.rows[p].errorClass)
    ensures var t := Next(cfg, s, step); p in t.q.rows && t.q.rows[p] == s.q.rows[p]
  {
    assert RowOk(s, l, p);
  }

  /**
   * A file that failed for good is recorded as dead, and is never claimed again while no one
   * revives it.
   */
  lemma TerminalIsFinal(cfg: Config, steps: seq<Step>, n: nat, stage: string)
    requires Possible(cfg, START, steps) && n < |steps| && steps[n] == WriteStep
    requires Possible(cfg, START, steps[..n])
    requires var s := Final(cfg, START, steps[..n]); !s.worker.Idle? && s.worker.outcome == Terminal(stage)
    requires var s := Final(cfg, START, steps[..n]); s.worker.path in s.q.rows
    requires forall i | n < i < |steps| ::
        !Revives(steps[i], Final(cfg, START, steps[..n]).worker.path, Some(Permanent))
    ensures var s, t := Final(cfg, START, steps[..n]), Final(cfg, START, steps);
      var p := s.worker.path;
      && p in t.q.rows && t.q.rows[p] == Row(Dead, 1, Some(Named(stage)), Some(Permanent), s.q.rows[p].due)
      && p !in t.claimed
  {
    hide Next, Concluded;
    PrefixIsPossible(cfg, START, steps, n + 1);
    assert steps[..n+1][..n] == steps[..n] && steps[..n+1][n] == WriteStep;
    WriteLeaves(cfg, steps[..n]);
    var s := Final(cfg, START, steps[..n]);
    TerminalRow(cfg, s.q.rows, Final(cfg, START, steps[..n+1]).q.rows, s.worker.path,
                if s.worker.Holding? then s.worker.attempts else 0, stage);
    DeadStaysDead(cfg, steps, n + 1, s.worker.path);
  }

  lemma TerminalRow(cfg: Config, before: map<Path, Row>, after: map<Path, Row>, path: Path, read: nat, stage: string)
    requires Concluded(cfg, before, after, path, read, Terminal(stage)) && path in before
    ensures path in after && after[path] == Row(Dead, 1, Some(Named(stage)), Some(Permanent), before[path].due)
  {
  }
}
