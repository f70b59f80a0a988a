/**
 * `IndexingQueue`: durable jobs, the one charge in flight, and what each
 * operation does to them.
 */
module Queue {
  import opened Wrappers

  type Path = string

  datatype Status = Queued | Dead

  /** `last_stage`: the mid-step mark, or the stage an outcome was recorded at. */
  datatype Stage = Interrupted | Named(name: string)

  datatype ErrorClass = Retryable | Permanent | Operator

  datatype Row = Row(status: Status, attempts: nat, stage: Option<Stage>, errorClass: Option<ErrorClass>, due: int)

  datatype Config = Config(maxAttempts: nat, baseBackoff: nat) {
    predicate Valid() {
      1 <= maxAttempts && 1 <= baseBackoff
    }
  }

  /** The durable rows, and the charge only this process remembers. */
  datatype State = State(rows: map<Path, Row>, inFlight: Option<Path>)

  const MAX_BACKOFF := 6 * 60 * 60

  function Power2(n: nat): nat {
    if n == 0 then 1 else 2 * Power2(n - 1)
  }

  function Backoff(base: nat, attempts: nat): nat {
    var b := base * Power2(attempts);
    if b < MAX_BACKOFF then b else MAX_BACKOFF
  }

  function FreshRow(due: int): Row {
    Row(Queued, 0, None, None, due)
  }

  // ----- the effect of each operation ------------------------------------------

  /** `INSERT OR REPLACE`: any prior state of the path is gone. */
  function Enqueue(s: State, path: Path, due: int): State {
    s.(rows := s.rows[path := FreshRow(due)])
  }

  /** `ON CONFLICT DO NOTHING`, for one path or every indexed file. */
  function EnqueueAbsent(s: State, paths: set<Path>, now: int): State {
    s.(rows := map p | p in s.rows.Keys + paths :: if p in s.rows then s.rows[p] else FreshRow(now))
  }

  predicate Exhausted(cfg: Config, r: Row) {
    r.status == Queued && r.stage == Some(Interrupted) && r.attempts >= cfg.maxAttempts
  }

  predicate BeginRuns(cfg: Config, s: State, path: Path) {
    path in s.rows ==> !Exhausted(cfg, s.rows[path])
  }

  function Charged(r: Row): Row {
    r.(attempts := r.attempts + 1, stage := Some(Interrupted))
  }

  function Begin(cfg: Config, s: State, path: Path): State {
    if !BeginRuns(cfg, s, path) then
      s.(rows := s.rows[path := s.rows[path].(status := Dead, errorClass := Some(Retryable))])
    else
      State(if path in s.rows && s.rows[path].status == Queued then s.rows[path := Charged(s.rows[path])] else s.rows,
            Some(path))
  }

  /** The row still carries the mark of a charge that can be given back. */
  predicate Refundable(s: State, path: Path) {
    path in s.rows && s.rows[path].stage == Some(Interrupted) && s.rows[path].attempts > 0
  }

  function Refunded(r: Row): Row
    requires r.attempts > 0
  {
    r.(attempts := r.attempts - 1, stage := None)
  }

  /** The refund's commit, and the end of the charge in memory, which only this process reads. */
  function Settle(s: State, path: Path): State {
    if s.inFlight != Some(path) then s
    else State(if Refundable(s, path) then s.rows[path := Refunded(s.rows[path])] else s.rows, None)
  }

  function Release(s: State, path: Path): State {
    if s.inFlight == Some(path) then s.(inFlight := None) else s
  }

  function MarkInterrupted(s: State, paths: set<Path>): State {
    s.(rows := map p | p in s.rows ::
                 if p in paths && s.rows[p].status == Queued then s.rows[p].(stage := Some(Interrupted)) else s.rows[p])
  }

  // ----- outcomes, one commit at a time ----------------------------------------------

  /** How a job ended, with what its method was given. */
  datatype Outcome =
    | Succeeded
    | Terminal(stage: string)
    | Failed(stage: string, now: int)
    | Deferred(stage: string, cls: ErrorClass, due: int)
  {
    /** `mark_failed` and `defer` read the count between settling and writing. */
    predicate Reads() {
      Failed? || Deferred?
    }
  }

  function ReadAttempts(s: State, path: Path): Option<nat> {
    if path in s.rows then Some(s.rows[path].attempts) else None
  }

  /** `queue_mark_failed`: the row becomes queued, with the caller's count. */
  function WriteQueued(s: State, path: Path, attempts: nat, stage: string, cls: ErrorClass, due: int): State {
    if path !in s.rows then s
    else s.(rows := s.rows[path := Row(Queued, attempts, Some(Named(stage)), Some(cls), due)])
  }

  /** `queue_mark_dead`. */
  function WriteDead(s: State, path: Path, attempts: nat, stage: string, cls: ErrorClass): State {
    if path !in s.rows then s
    else
      var row := s.rows[path].(attempts := attempts, stage := Some(Named(stage)), errorClass := Some(cls));
      s.(rows := s.rows[path := row.(status := Dead)])
  }

  /** The last commit of an outcome; `attempts` is what was read, where something was. */
  function Write(cfg: Config, s: State, path: Path, attempts: nat, o: Outcome): State {
    match o
    case Succeeded => s.(rows := s.rows - {path})
    case Terminal(stage) => WriteDead(s, path, 1, stage, Permanent)
    case Failed(stage, now) =>
      if attempts + 1 >= cfg.maxAttempts then WriteDead(s, path, attempts + 1, stage, Retryable)
      else WriteQueued(s, path, attempts + 1, stage, Retryable, now + Backoff(cfg.baseBackoff, attempts))
    case Deferred(stage, cls, due) => WriteQueued(s, path, attempts, stage, cls, due)
  }

  /** What other threads and processes do to the rows before this process's `n`th commit. */
  type Others = (nat, map<Path, Row>) -> map<Path, Row>

  function After(others: Others, n: nat, s: State): State {
    s.(rows := others(n, s.rows))
  }

  /** An outcome method from its first commit to its last, with others between them. */
  function Conclude(cfg: Config, s: State, path: Path, o: Outcome, others: Others, n: nat): State {
    var settled := After(others, n, Settle(s, path));
    if !o.Reads() then Write(cfg, settled, path, 0, o)
    else
      var read := ReadAttempts(settled, path);
      if read.None? then settled else Write(cfg, After(others, n + 1, settled), path, read.value, o)
  }

  /** `defer(in_transaction=True)`: the refund is folded into the row's write; the charge stays open in memory. */
  function DeferInTransaction(s: State, path: Path, stage: string, cls: ErrorClass, due: int): State {
    if path !in s.rows then s
    else
      var r := s.rows[path];
      var attempts := if s.inFlight == Some(path) && Refundable(s, path) then r.attempts - 1 else r.attempts;
      WriteQueued(s, path, attempts, stage, cls, due)
  }

  function RequeueDead(s: State, cls: Option<ErrorClass>, now: int): State {
    s.(rows := map p | p in s.rows ::
                 if Rescued(s.rows[p], cls)
                 then s.rows[p].(status := Queued, attempts := 0, errorClass := None, due := now)
                 else s.rows[p])
  }

  predicate Rescued(r: Row, cls: Option<ErrorClass>) {
    r.status == Dead && (cls == None || r.errorClass == cls)
  }

  /** `_unmark_paths`: a reap removes the rows of its paths. */
  function Unmark(s: State, paths: set<Path>): State {
    s.(rows := s.rows - paths)
  }

  /** The process dies: rows survive, the charge in memory does not. */
  function Die(s: State): State {
    s.(inFlight := None)
  }

  // ----- the queue as it runs ------------------------------------------------------

  class IndexingQueue {
    const cfg: Config
    var rows: map<Path, Row>
    var inFlight: Option<Path>
    var deferrals: map<string, nat>
    var missingJobChecks: set<Path>
    const others: Others
    var commits: nat

    ghost function Contents(): State
      reads this`rows, this`inFlight
    {
      State(rows, inFlight)
    }

    constructor (cfg: Config, others: Others)
      ensures this.cfg == cfg && this.others == others && Contents() == State(map[], None) && deferrals == map[]
    {
      this.cfg, this.others, commits := cfg, others, 0;
      rows, inFlight, deferrals, missingJobChecks := map[], None, map[], {};
    }

    /** Between two commits of one method the lock is free, and others may commit. */
    method Yield()
      modifies this`rows, this`commits
      ensures Contents() == After(others, old(commits), old(Contents())) && commits == old(commits) + 1
    {
      rows, commits := others(commits, rows), commits + 1;
    }

    method EnqueuePath(path: Path, dueAt: Option<int>, now: int)
      modifies this`rows
      ensures Contents() == Enqueue(old(Contents()), path, if dueAt.Some? then dueAt.value else now)
    {
      rows := rows[path := Row(Queued, 0, None, None, if dueAt.Some? then dueAt.value else now)];
    }

    /** `queue_charge_attempt`. */
    method ChargeAttempt(path: Path) returns (charged: bool)
      modifies this`rows
      ensures charged == BeginRuns(cfg, old(Contents()), path)
      ensures rows == Begin(cfg, old(Contents()), path).rows
    {
      var exhausted := path in rows && rows[path].status == Queued && rows[path].stage == Some(Interrupted)
        && rows[path].attempts >= cfg.maxAttempts;
      if exhausted {
        rows := rows[path := rows[path].(status := Dead, errorClass := Some(Retryable))];
      } else if path in rows && rows[path].status == Queued {
        rows := rows[path := rows[path].(attempts := rows[path].attempts + 1, stage := Some(Interrupted))];
      }
      charged := !exhausted;
    }

    method BeginAttempt(path: Path) returns (runs: bool)
      modifies this`rows, this`inFlight
      ensures runs == BeginRuns(cfg, old(Contents()), path)
      ensures Contents() == Begin(cfg, old(Contents()), path)
    {
      runs := ChargeAttempt(path);
      if runs {
        inFlight := Some(path);
      }
    }

    /** `queue_refund_attempt`. */
    method RefundAttempt(path: Path)
      modifies this`rows
      ensures rows == if Refundable(old(Contents()), path) then old(rows)[path := Refunded(old(rows)[path])]
                      else old(rows)
    {
      if path in rows && rows[path].stage == Some(Interrupted) && rows[path].attempts > 0 {
        rows := rows[path := rows[path].(attempts := rows[path].attempts - 1, stage := None)];
      }
    }

    /** `_settle`, and so `end_attempt`. */
    method EndAttempt(path: Path)
      modifies this`rows, this`inFlight
      ensures Contents() == Settle(old(Contents()), path)
    {
      if inFlight != Some(path) {
        return;
      }
      RefundAttempt(path);
      inFlight := None;
    }

    method ReleaseCharge(path: Path)
      modifies this`inFlight
      ensures Contents() == Release(old(Contents()), path)
    {
      if inFlight.Some? && inFlight.value == path {
        inFlight := None;
      }
    }

    method MarkInterruptedRows(paths: seq<Path>)
      modifies this`rows
      ensures Contents() == MarkInterrupted(old(Contents()), SetOf(paths))
    {
      hide MarkInterrupted;
      MarkInterruptedMore(Contents(), paths, 0);
      for i := 0 to |paths|
        invariant Contents() == MarkInterrupted(old(Contents()), SetOf(paths[..i]))
      {
        MarkInterruptedMore(old(Contents()), paths, i);
        if paths[i] in rows && rows[paths[i]].status == Queued {
          rows := rows[paths[i] := rows[paths[i]].(stage := Some(Interrupted))];
        }
      }
      assert paths[..|paths|] == paths;
    }

    method MarkSucceeded(path: Path)
      modifies this`rows, this`inFlight, this`missingJobChecks, this`commits
      ensures Contents() == Conclude(cfg, old(Contents()), path, Succeeded, others, old(commits))
      ensures missingJobChecks == old(missingJobChecks) - {path}
    {
      EndAttempt(path);
      Yield();
      missingJobChecks := missingJobChecks - {path};
      rows := rows - {path};
    }

    /** `queue_mark_dead`. */
    method MarkDeadRow(path: Path, attempts: nat, stage: string, cls: ErrorClass)
      modifies this`rows
      ensures Contents() == WriteDead(old(Contents()), path, attempts, stage, cls)
    {
      if path in rows {
        var row := rows[path].(attempts := attempts, stage := Some(Named(stage)), errorClass := Some(cls));
        rows := rows[path := row.(status := Dead)];
      }
    }

    /** `queue_mark_failed`. */
    method MarkQueuedRow(path: Path, attempts: nat, stage: string, cls: ErrorClass, due: int)
      modifies this`rows
      ensures Contents() == WriteQueued(old(Contents()), path, attempts, stage, cls, due)
    {
      if path in rows {
        var row := rows[path].(attempts := attempts, stage := Some(Named(stage)), errorClass := Some(cls), due := due);
        rows := rows[path := row.(status := Queued)];
      }
    }

    /** `queue_get_attempts`. */
    method GetAttempts(path: Path) returns (attempts: Option<nat>)
      ensures attempts == ReadAttempts(Contents(), path)
    {
      attempts := if path in rows then Some(rows[path].attempts) else None;
    }

    method MarkDeadTerminal(path: Path, stage: string)
      modifies this`rows, this`inFlight, this`commits
      ensures Contents() == Conclude(cfg, old(Contents()), path, Terminal(stage), others, old(commits))
    {
      EndAttempt(path);
      Yield();
      MarkDeadRow(path, 1, stage, Permanent);
    }

    /** `mark_failed`: the count written is the one read, whatever was committed in between. */
    method MarkFailed(path: Path, stage: string, now: int)
      modifies this`rows, this`inFlight, this`commits
      ensures Contents() == Conclude(cfg, old(Contents()), path, Failed(stage, now), others, old(commits))
    {
      EndAttempt(path);
      Yield();
      var attemptsBefore := GetAttempts(path);
      if attemptsBefore.None? {
        return;
      }
      var newAttempts := attemptsBefore.value + 1;
      Yield();
      if newAttempts >= cfg.maxAttempts {
        MarkDeadRow(path, newAttempts, stage, Retryable);
        return;
      }
      MarkQueuedRow(path, newAttempts, stage, Retryable, now + Backoff(cfg.baseBackoff, attemptsBefore.value));
    }

    /** `defer`: one commit inside the caller's transaction, else three. */
    method DeferJob(path: Path, stage: string, cls: ErrorClass, due: int, inTransaction: bool)
      modifies this`rows, this`inFlight, this`deferrals, this`commits
      ensures Contents() == if inTransaction then DeferInTransaction(old(Contents()), path, stage, cls, due)
                            else Conclude(cfg, old(Contents()), path, Deferred(stage, cls, due), others, old(commits))
      ensures var found := if inTransaction then path in old(rows)
                           else path in After(others, old(commits), Settle(old(Contents()), path)).rows;
              var before := if stage in old(deferrals) then old(deferrals)[stage] else 0;
              deferrals == if !found then old(deferrals) else old(deferrals)[stage := before + 1]
    {
      var attempts: nat;
      if inTransaction {
        if path !in rows {
          return;
        }
        attempts := rows[path].attempts;
        var charged := inFlight.Some? && inFlight.value == path;
        if charged && rows[path].stage == Some(Interrupted) && attempts > 0 {
          attempts := attempts - 1;
        }
      } else {
        EndAttempt(path);
        Yield();
        var found := GetAttempts(path);
        if found.None? {
          return;
        }
        attempts := found.value;
        Yield();
      }
      MarkQueuedRow(path, attempts, stage, cls, due);
      deferrals := deferrals[stage := (if stage in deferrals then deferrals[stage] else 0) + 1];
    }

    method RequeueDeadRows(cls: Option<ErrorClass>, now: int) returns (count: nat)
      modifies this`rows
      ensures Contents() == RequeueDead(old(Contents()), cls, now)
      ensures count == |set p | p in old(rows) && Rescued(old(rows)[p], cls)|
    {
      count := |set p | p in rows && Rescued(rows[p], cls)|;
      rows := map p | p in rows ::
        if rows[p].status == Dead && (cls == None || rows[p].errorClass == cls)
        then rows[p].(status := Queued, attempts := 0, errorClass := None, due := now) else rows[p];
    }
  }

  /** Marking one more row of a list. */
  lemma MarkInterruptedMore(s: State, paths: seq<Path>, i: nat)
    requires i <= |paths|
    ensures i == 0 ==> MarkInterrupted(s, SetOf(paths[..i])) == s
    ensures i < |paths| ==>
              var t := MarkInterrupted(s, SetOf(paths[..i]));
              MarkInterrupted(s, SetOf(paths[..i+1])) ==
              if paths[i] in t.rows && t.rows[paths[i]].status == Queued
              then t.(rows := t.rows[paths[i] := t.rows[paths[i]].(stage := Some(Interrupted))]) else t
  {
    assert paths[..0] == [];
    if i < |paths| {
      assert paths[..i+1] == paths[..i] + [paths[i]];
    }
  }
}
