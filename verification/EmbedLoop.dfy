/** `_embed_chunks_concurrently` as a transition system, in every interleaving, and the sequential path. */
module EmbedLoop {
  import opened Wrappers

  const ATTEMPTS: nat := 3

  /** One chunk's request. `used` counts provider calls that failed before. */
  datatype Request =
    | Unsent
    | Waiting(used: nat)
    | Sending(used: nat)
    | Failing
    | Answered
    | Failed
    | Skipped
    | Collected

  /** What makes the coordinator leave: a request's failure, or the progress callback after a request. */
  datatype Cause = Request(i: nat) | Callback(i: nat)

  /** Where the coordinator stands. */
  datatype Control =
    | Top
    | Scan(todo: set<nat>, found: set<nat>)
    | Collect(batch: set<nat>)
    | Choose
    | Submit
    | Wait
    | Leaving(cause: Cause)
    | Returned
    | Raised(cause: Cause)

  /** `late` counts submissions made with the failure event already set; it is history only. */
  datatype State<A> = State(reqs: seq<Request>, results: seq<Option<A>>, next: nat, failed: bool, control: Control,
                            late: nat)

  /** What the provider answers for each chunk when it answers, and the pool's size. */
  datatype Config<A> = Config(answers: seq<A>, concurrency: nat)

  datatype Step =
    | Check(i: nat)
    | Succeed(i: nat)
    | Transient(i: nat)
    | Fatal(i: nat)
    | Finish(i: nat)
    | EnterPass
    | Look(i: nat)
    | EndScan
    | Take(i: nat)
    | TakeRaising(i: nat)
    | EndCollect
    | Decide
    | SubmitNext
    | Wake
    | Drain

  predicate Done(r: Request) {
    r.Answered? || r.Failed? || r.Skipped?
  }

  predicate Pending(r: Request) {
    !r.Unsent? && !r.Collected?
  }

  function PendingSet(reqs: seq<Request>): set<nat> {
    set i: nat | i < |reqs| && Pending(reqs[i])
  }

  function Init<A>(cfg: Config<A>): State<A> {
    State(seq(|cfg.answers|, _ => Unsent), seq(|cfg.answers|, _ => None), 0, false, Top, 0)
  }

  predicate Terminal<A>(s: State<A>) {
    s.control.Returned? || s.control.Raised?
  }

  ghost predicate Enabled<A>(cfg: Config<A>, s: State<A>, step: Step) {
    match step
    case Check(i) => i < |s.reqs| && s.reqs[i].Waiting?
    case Succeed(i) => i < |s.reqs| && s.reqs[i].Sending?
    case Transient(i) => i < |s.reqs| && s.reqs[i].Sending?
    case Fatal(i) => i < |s.reqs| && s.reqs[i].Sending?
    case Finish(i) => i < |s.reqs| && s.reqs[i].Failing?
    case EnterPass => s.control.Top?
    case Look(i) => s.control.Scan? && i in s.control.todo && i < |s.reqs|
    case EndScan => s.control.Scan? && s.control.todo == {}
    case Take(i) => s.control.Collect? && i in s.control.batch && i < |s.reqs|
    case TakeRaising(i) => s.control.Collect? && i in s.control.batch && i < |s.reqs| && s.reqs[i].Answered?
    case EndCollect => s.control.Collect? && s.control.batch == {}
    case Decide => s.control.Choose?
    case SubmitNext => s.control.Submit? && s.next < |s.reqs|
    case Wake => s.control.Wait? && exists i: nat :: i < |s.reqs| && Done(s.reqs[i])
    case Drain => s.control.Leaving? && forall i: nat | i < |s.reqs| && Pending(s.reqs[i]) :: Done(s.reqs[i])
  }

  function Fail<A>(s: State<A>, i: nat): State<A>
    requires i < |s.reqs|
  {
    s.(reqs := s.reqs[i := Failing], failed := true)
  }

  ghost function Next<A>(cfg: Config<A>, s: State<A>, step: Step): State<A>
    requires Enabled(cfg, s, step) && |s.reqs| == |s.results| == |cfg.answers|
  {
    match step
    // The check before every provider call, retries included.
    case Check(i) =>
      if s.failed then s.(reqs := s.reqs[i := Skipped])
      else s.(reqs := s.reqs[i := Sending(s.reqs[i].used)])
    case Succeed(i) => s.(reqs := s.reqs[i := Answered])
    case Transient(i) =>
      if s.reqs[i].used + 1 < ATTEMPTS then s.(reqs := s.reqs[i := Waiting(s.reqs[i].used + 1)]) else Fail(s, i)
    case Fatal(i) => Fail(s, i)
    case Finish(i) => s.(reqs := s.reqs[i := Failed])
    case EnterPass =>
      if s.next < |s.reqs| || PendingSet(s.reqs) != {} then s.(control := Scan(PendingSet(s.reqs), {}))
      else s.(control := Returned)
    case Look(i) =>
      s.(control := Scan(s.control.todo - {i}, if Done(s.reqs[i]) then s.control.found + {i} else s.control.found))
    case EndScan => s.(control := if s.control.found == {} then Choose else Collect(s.control.found))
    case Take(i) =>
      var t := s.(reqs := s.reqs[i := Collected], control := Collect(s.control.batch - {i}));
      if s.reqs[i].Answered? then t.(results := s.results[i := Some(cfg.answers[i])])
      else if s.reqs[i].Skipped? then t
      else t.(control := Leaving(Cause.Request(i)))
    // The result is kept, and then the callback raises.
    case TakeRaising(i) =>
      s.(reqs := s.reqs[i := Collected], results := s.results[i := Some(cfg.answers[i])],
         control := Leaving(Callback(i)))
    case EndCollect => s.(control := Scan(PendingSet(s.reqs), {}))
    case Decide =>
      if s.next < |s.reqs| && |PendingSet(s.reqs)| < cfg.concurrency && !s.failed then s.(control := Submit)
      else if PendingSet(s.reqs) != {} then s.(control := Wait)
      else s.(control := Top)
    case SubmitNext =>
      s.(reqs := s.reqs[s.next := Waiting(0)], next := s.next + 1, control := Top,
         late := s.late + if s.failed then 1 else 0)
    case Wake => s.(control := Top)
    case Drain => s.(control := Raised(s.control.cause))
  }

  // ----- what every interleaving keeps ------------------------------------------------

  ghost predicate Shape<A>(cfg: Config<A>, s: State<A>) {
    && |s.reqs| == |s.results| == |cfg.answers|
    && s.next <= |s.reqs|
    && (forall i: nat | i < |s.reqs| :: s.reqs[i].Unsent? <==> s.next <= i)
    && (forall i: nat | i < |s.reqs| :: (s.reqs[i].Waiting? || s.reqs[i].Sending?) ==> s.reqs[i].used < ATTEMPTS)
  }

  /** A collected chunk has its own answer, unless a failure made it skip. */
  ghost predicate ResultsOk<A>(cfg: Config<A>, s: State<A>)
    requires |s.reqs| == |s.results| == |cfg.answers|
  {
    && (forall i: nat | i < |s.results| && s.results[i].Some? ::
            s.results[i].value == cfg.answers[i] && s.reqs[i].Collected?)
    && (forall i: nat | i < |s.results| && s.reqs[i].Collected? :: s.results[i].Some? || s.failed)
  }

  /** The event is set by a request that failed, and that request waits to be collected until the loop leaves. */
  ghost predicate FailureOk<A>(s: State<A>) {
    && (forall i: nat | i < |s.reqs| && (s.reqs[i].Failing? || s.reqs[i].Failed? || s.reqs[i].Skipped?) :: s.failed)
    && (s.failed && !s.control.Leaving? && !s.control.Raised? ==> FailurePending(s.reqs))
  }

  ghost predicate FailurePending(reqs: seq<Request>) {
    exists i: nat :: i < |reqs| && FailedAt(reqs, i)
  }

  ghost predicate FailedAt(reqs: seq<Request>, i: nat)
    requires i < |reqs|
  {
    reqs[i].Failing? || reqs[i].Failed?
  }

  ghost predicate ControlOk<A>(cfg: Config<A>, s: State<A>) {
    match s.control
    case Scan(todo, found) =>
      && todo <= PendingSet(s.reqs) && found <= PendingSet(s.reqs)
      && forall i | i in found :: i < |s.reqs| && Done(s.reqs[i])
    case Collect(batch) => batch <= PendingSet(s.reqs) && forall i | i in batch :: i < |s.reqs| && Done(s.reqs[i])
    case Submit => s.next < |s.reqs| && |PendingSet(s.reqs)| < cfg.concurrency
    case Wait => PendingSet(s.reqs) != {}
    case Leaving(cause) => cause.i < |s.reqs| && (cause.Request? ==> s.failed)
    case Raised(cause) => cause.i < |s.reqs| && (cause.Request? ==> s.failed)
    case Returned => s.next == |s.reqs| && PendingSet(s.reqs) == {}
    case _ => true
  }

  ghost predicate LateOk<A>(s: State<A>) {
    && s.late <= 1
    && (s.late == 1 ==> s.failed && !s.control.Submit?)
  }

  ghost predicate Inv<A>(cfg: Config<A>, s: State<A>) {
    && Shape(cfg, s) && ResultsOk(cfg, s) && FailureOk(s) && ControlOk(cfg, s) && LateOk(s)
    && |PendingSet(s.reqs)| <= cfg.concurrency
  }

  // ----- one step at a time ---------------------------------------------------------

  lemma InitOk<A>(cfg: Config<A>)
    ensures Inv(cfg, Init(cfg))
  {
    assert PendingSet(Init(cfg).reqs) == {};
  }

  lemma ShapeStep<A>(cfg: Config<A>, s: State<A>, step: Step)
    requires Shape(cfg, s) && ControlOk(cfg, s) && Enabled(cfg, s, step)
    ensures Shape(cfg, Next(cfg, s, step))
  {
  }

  lemma ResultsStep<A>(cfg: Config<A>, s: State<A>, step: Step)
    requires Shape(cfg, s) && ResultsOk(cfg, s) && FailureOk(s) && ControlOk(cfg, s) && Enabled(cfg, s, step)
    ensures ResultsOk(cfg, Next(cfg, s, step))
  {
    hide PendingSet;
  }

  lemma FailureStep<A>(cfg: Config<A>, s: State<A>, step: Step)
    requires Shape(cfg, s) && FailureOk(s) && ControlOk(cfg, s) && Enabled(cfg, s, step)
    ensures FailureOk(Next(cfg, s, step))
  {
    var s' := Next(cfg, s, step);
    if s'.failed && !s'.control.Leaving? && !s'.control.Raised? {
      if s.failed {
        var i: nat :| i < |s.reqs| && FailedAt(s.reqs, i);
        assert FailedAt(s'.reqs, i);
      } else {
        assert FailedAt(s'.reqs, step.i);
      }
    }
  }

  lemma PendingStep<A>(cfg: Config<A>, s: State<A>, step: Step)
    requires Shape(cfg, s) && Enabled(cfg, s, step)
    ensures var p, p' := PendingSet(s.reqs), PendingSet(Next(cfg, s, step).reqs);
      p' == if step.Take? || step.TakeRaising? then p - {step.i} else if step.SubmitNext? then p + {s.next} else
            if step.Check? || step.Succeed? || step.Transient? || step.Fatal? || step.Finish? then p + {step.i} else p
    ensures (step.Check? || step.Succeed? || step.Transient? || step.Fatal? || step.Finish?) ==>
        step.i in PendingSet(s.reqs)
    ensures step.SubmitNext? ==> s.next !in PendingSet(s.reqs)
  {
  }

  lemma ControlStep<A>(cfg: Config<A>, s: State<A>, step: Step)
    requires Shape(cfg, s) && ControlOk(cfg, s) && FailureOk(s) && Enabled(cfg, s, step)
    ensures ControlOk(cfg, Next(cfg, s, step))
  {
    hide Shape, ControlOk, FailureOk, PendingSet;
    if OnRequest(step) {
      ControlOnRequest(cfg, s, step);
    } else if step.Take? || step.TakeRaising? || step.SubmitNext? || step.Look? || step.EndScan? || step.EndCollect? {
      ControlOnPass(cfg, s, step);
    } else {
      ControlOnChoice(cfg, s, step);
    }
  }

  predicate OnRequest(step: Step) {
    step.Check? || step.Succeed? || step.Transient? || step.Fatal? || step.Finish?
  }

  lemma ControlOnRequest<A>(cfg: Config<A>, s: State<A>, step: Step)
    requires Shape(cfg, s) && ControlOk(cfg, s) && FailureOk(s) && Enabled(cfg, s, step) && OnRequest(step)
    ensures ControlOk(cfg, Next(cfg, s, step))
  {
    PendingStep(cfg, s, step);
    hide PendingSet;
  }

  lemma ControlOnPass<A>(cfg: Config<A>, s: State<A>, step: Step)
    requires Shape(cfg, s) && ControlOk(cfg, s) && FailureOk(s) && Enabled(cfg, s, step)
    requires step.Take? || step.TakeRaising? || step.SubmitNext? || step.Look? || step.EndScan? || step.EndCollect?
    ensures ControlOk(cfg, Next(cfg, s, step))
  {
    PendingStep(cfg, s, step);
  }

  lemma ControlOnChoice<A>(cfg: Config<A>, s: State<A>, step: Step)
    requires Shape(cfg, s) && ControlOk(cfg, s) && FailureOk(s) && Enabled(cfg, s, step)
    requires step.EnterPass? || step.Decide? || step.Wake? || step.Drain?
    ensures ControlOk(cfg, Next(cfg, s, step))
  {
    PendingStep(cfg, s, step);
  }

  lemma LateStep<A>(cfg: Config<A>, s: State<A>, step: Step)
    requires Shape(cfg, s) && LateOk(s) && Enabled(cfg, s, step)
    ensures LateOk(Next(cfg, s, step))
  {
  }

  lemma StepKeeps<A>(cfg: Config<A>, s: State<A>, step: Step)
    requires Inv(cfg, s) && Enabled(cfg, s, step)
    ensures Inv(cfg, Next(cfg, s, step))
  {
    hide Shape, ResultsOk, FailureOk, ControlOk, LateOk;
    Lengths(cfg, s);
    ShapeStep(cfg, s, step);
    ResultsStep(cfg, s, step);
    FailureStep(cfg, s, step);
    ControlStep(cfg, s, step);
    LateStep(cfg, s, step);
    PendingStep(cfg, s, step);
    if step.SubmitNext? { RoomToSubmit(cfg, s); }
  }

  lemma Lengths<A>(cfg: Config<A>, s: State<A>)
    requires Shape(cfg, s)
    ensures |s.reqs| == |s.results| == |cfg.answers|
  {
  }

  lemma RoomToSubmit<A>(cfg: Config<A>, s: State<A>)
    requires ControlOk(cfg, s) && s.control.Submit?
    ensures |PendingSet(s.reqs)| < cfg.concurrency
  {
  }

  // ----- every run ---------------------------------------------------------------------

  ghost function Final<A>(cfg: Config<A>, steps: seq<Step>): Option<State<A>> {
    if steps == [] then Some(Init(cfg))
    else
      var before := Final(cfg, steps[..|steps|-1]);
      var step := steps[|steps|-1];
      if before.Some? && |before.value.reqs| == |before.value.results| == |cfg.answers|
         && Enabled(cfg, before.value, step)
      then Some(Next(cfg, before.value, step)) else None
  }

  lemma {:induction false} RunKeeps<A>(cfg: Config<A>, steps: seq<Step>)
    ensures Final(cfg, steps).Some? ==> Inv(cfg, Final(cfg, steps).value)
  {
    hide Inv, Next, Enabled;
    if steps == [] {
      InitOk(cfg);
    } else {
      var before := Final(cfg, steps[..|steps|-1]);
      RunKeeps(cfg, steps[..|steps|-1]);
      if before.Some? && |before.value.reqs| == |before.value.results| == |cfg.answers|
         && Enabled(cfg, before.value, steps[|steps|-1]) {
        StepKeeps(cfg, before.value, steps[|steps|-1]);
      }
    }
  }

  function Values<A>(results: seq<Option<A>>): seq<A> {
    if results == [] then []
    else Values(results[..|results|-1]) + if results[|results|-1].Some? then [results[|results|-1].value] else []
  }

  lemma {:induction false} AllValues<A>(results: seq<Option<A>>, answers: seq<A>)
    requires |results| == |answers| && forall i | 0 <= i < |results| :: results[i] == Some(answers[i])
    ensures Values(results) == answers
  {
    if results != [] {
      AllValues(results[..|results|-1], answers[..|answers|-1]);
    }
  }

  /**
   * In every interleaving the loop returns every chunk's answer in input order, or
   * raises the failure of a request that failed, or what the progress callback raised;
   * never a skip, never a short list.
   */
  lemma OutcomeIsWholeOrRealFailure<A>(cfg: Config<A>, steps: seq<Step>)
    requires Final(cfg, steps).Some?
    ensures var s := Final(cfg, steps).value;
      && (s.control.Returned? ==> Values(s.results) == cfg.answers && !s.failed)
      && (s.control.Raised? ==> s.control.cause.i < |cfg.answers| && RaisesFailure(steps, s.control.cause))
  {
    RunKeeps(cfg, steps);
    var s := Final(cfg, steps).value;
    if s.control.Returned? {
      ReturnedWhole(cfg, s);
    }
    if s.control.Raised? || s.control.Leaving? {
      CauseFailed(cfg, steps);
    }
  }

  lemma ReturnedWhole<A>(cfg: Config<A>, s: State<A>)
    requires Inv(cfg, s) && s.control.Returned?
    ensures !s.failed && Values(s.results) == cfg.answers
  {
    forall i: nat | i < |s.reqs|
      ensures s.reqs[i].Collected?
    {
      assert i !in PendingSet(s.reqs);
    }
    assert forall i: nat | i < |s.reqs| :: !FailedAt(s.reqs, i);
    AllValues(s.results, cfg.answers);
  }

  /**
   * The cause is real: the request's provider call ended in a failure it could not retry, or
   * the callback raised after its answer was collected.
   */
  ghost predicate RaisesFailure(steps: seq<Step>, cause: Cause) {
    exists k: nat :: k < |steps| && steps[k] == Raising(cause)
  }

  function Raising(cause: Cause): Step {
    if cause.Request? then Finish(cause.i) else TakeRaising(cause.i)
  }

  /** A request that failed finished failing earlier in the run. */
  lemma {:induction false} FailedFinished<A>(cfg: Config<A>, steps: seq<Step>, i: nat)
    requires Final(cfg, steps).Some? && i < |Final(cfg, steps).value.reqs| && Final(cfg, steps).value.reqs[i].Failed?
    ensures RaisesFailure(steps, Cause.Request(i))
  {
    hide Inv, Next, Enabled;
    NothingFailedYet(cfg);
    var before := steps[..|steps|-1];
    var step := steps[|steps|-1];
    if step != Finish(i) {
      OnlyFinishFails(cfg, Final(cfg, before).value, step, i);
      FailedFinished(cfg, before, i);
      RaisedEarlier(steps, Cause.Request(i));
    } else {
      assert steps[|steps|-1] == Raising(Cause.Request(i));
    }
  }

  lemma RaisedEarlier(steps: seq<Step>, cause: Cause)
    requires steps != [] && RaisesFailure(steps[..|steps|-1], cause)
    ensures RaisesFailure(steps, cause)
  {
    var k: nat :| k < |steps| - 1 && steps[..|steps|-1][k] == Raising(cause);
    assert steps[k] == Raising(cause);
  }

  // ----- retries ---------------------------------------------------------------------------

  /** How often the step was taken. */
  function Times(steps: seq<Step>, step: Step): nat {
    if steps == [] then 0 else Times(steps[..|steps|-1], step) + if steps[|steps|-1] == step then 1 else 0
  }

  /** Where request `i` stands, told from its steps: three transient failures, or a fatal one, fail it. */
  ghost predicate CountsOk(r: Request, i: nat, steps: seq<Step>) {
    var transient, fatal := Times(steps, Transient(i)), Times(steps, Fatal(i));
    var finished, ended := Times(steps, Finish(i)), Times(steps, Succeed(i));
    && transient <= ATTEMPTS && fatal + ended <= 1 && finished <= 1
    && (r.Waiting? || r.Sending? ==> r.used == transient < ATTEMPTS && fatal == 0 && ended == 0)
    && (r.Unsent? ==> transient == 0 && fatal == 0 && ended == 0)
    && (r.Failing? <==> (fatal == 1 || transient == ATTEMPTS) && finished == 0)
    && (r.Failed? ==> finished == 1)
    && (finished == 1 ==> (fatal == 1 || transient == ATTEMPTS) && (r.Failed? || r.Collected?))
    && (ended == 1 ==> fatal == 0 && transient < ATTEMPTS && (r.Answered? || r.Collected?))
    && (r.Answered? ==> ended == 1)
    && (r.Skipped? ==> fatal == 0 && transient < ATTEMPTS && ended == 0)
  }

  lemma {:induction false} RetriesAreCounted<A>(cfg: Config<A>, steps: seq<Step>, i: nat)
    requires Final(cfg, steps).Some? && i < |cfg.answers|
    ensures |Final(cfg, steps).value.reqs| == |cfg.answers| && CountsOk(Final(cfg, steps).value.reqs[i], i, steps)
  {
    hide Inv, Next, Enabled, CountsOk;
    RunKeeps(cfg, steps);
    SameLength(cfg, Final(cfg, steps).value);
    if steps == [] {
      NoneCounted(i);
    } else {
      var before, step := steps[..|steps|-1], steps[|steps|-1];
      RunKeeps(cfg, before);
      RetriesAreCounted(cfg, before, i);
      CountStep(cfg, Final(cfg, before).value, steps, i);
    }
  }

  lemma NoneCounted(i: nat)
    ensures CountsOk(Unsent, i, [])
  {
  }

  lemma CountStep<A>(cfg: Config<A>, s: State<A>, steps: seq<Step>, i: nat)
    requires steps != [] && |s.reqs| == |s.results| == |cfg.answers| && i < |s.reqs| && Inv(cfg, s)
    requires Enabled(cfg, s, steps[|steps|-1]) && CountsOk(s.reqs[i], i, steps[..|steps|-1])
    ensures i < |Next(cfg, s, steps[|steps|-1]).reqs| && CountsOk(Next(cfg, s, steps[|steps|-1]).reqs[i], i, steps)
  {
    hide PendingSet, ResultsOk, FailureOk, LateOk, Times;
    OneTimeMore(steps, Transient(i));
    OneTimeMore(steps, Fatal(i));
    OneTimeMore(steps, Finish(i));
    OneTimeMore(steps, Succeed(i));
  }

  lemma OneTimeMore(steps: seq<Step>, step: Step)
    requires steps != []
    ensures Times(steps, step) == Times(steps[..|steps|-1], step) + if steps[|steps|-1] == step then 1 else 0
  {
  }

  /**
   * A request is answered or failed by its own calls alone: it fails exactly on a fatal
   * answer or on the third transient one, and before that a transient one is tried again.
   */
  lemma RetriesEnd<A>(cfg: Config<A>, steps: seq<Step>, i: nat)
    requires Final(cfg, steps).Some? && i < |cfg.answers|
    ensures var s, transient, fatal := Final(cfg, steps).value, Times(steps, Transient(i)), Times(steps, Fatal(i));
      && i < |s.reqs| && transient <= ATTEMPTS && fatal <= 1
      && (s.reqs[i].Failing? || Times(steps, Finish(i)) == 1 <==> fatal == 1 || transient == ATTEMPTS)
      && (steps != [] && steps[|steps|-1] == Transient(i) && transient < ATTEMPTS ==> s.reqs[i] == Waiting(transient))
  {
    hide Inv, Next, Enabled;
    RetriesAreCounted(cfg, steps, i);
    if steps != [] && steps[|steps|-1] == Transient(i) {
      var before := steps[..|steps|-1];
      RetriesAreCounted(cfg, before, i);
      RunKeeps(cfg, before);
      TransientWaits(cfg, Final(cfg, before).value, i);
    }
  }

  lemma TransientWaits<A>(cfg: Config<A>, s: State<A>, i: nat)
    requires |s.reqs| == |s.results| == |cfg.answers| && Enabled(cfg, s, Transient(i))
    ensures s.reqs[i].Sending?
    ensures var n := Next(cfg, s, Transient(i)); i < |n.reqs| && (n.reqs[i].Waiting? || n.reqs[i].Failing?)
  {
  }

  lemma NothingFailedYet<A>(cfg: Config<A>)
    ensures forall i: nat | i < |Init(cfg).reqs| :: Init(cfg).reqs[i].Unsent?
  {
  }

  lemma OnlyFinishFails<A>(cfg: Config<A>, s: State<A>, step: Step, i: nat)
    requires |s.reqs| == |s.results| == |cfg.answers| && Enabled(cfg, s, step) && step != Finish(i)
    requires i < |Next(cfg, s, step).reqs| && Next(cfg, s, step).reqs[i].Failed?
    ensures i < |s.reqs| && s.reqs[i].Failed?
  {
    hide PendingSet;
  }


  lemma {:induction false} CauseFailed<A>(cfg: Config<A>, steps: seq<Step>)
    requires Final(cfg, steps).Some?
    requires Final(cfg, steps).value.control.Leaving? || Final(cfg, steps).value.control.Raised?
    ensures RaisesFailure(steps, Final(cfg, steps).value.control.cause)
  {
    hide Inv, Next, Enabled;
    var before, step := steps[..|steps|-1], steps[|steps|-1];
    RunKeeps(cfg, before);
    var s := Final(cfg, before).value;
    var cause := Final(cfg, steps).value.control.cause;
    LeavesOnFailure(cfg, s, step);
    if s.control.Leaving? || s.control.Raised? {
      CauseFailed(cfg, before);
      RaisedEarlier(steps, cause);
    } else if cause.Request? {
      FailedFinished(cfg, before, cause.i);
      RaisedEarlier(steps, cause);
    } else {
      assert steps[|steps|-1] == Raising(cause);
    }
  }

  /** The loop leaves only on collecting a failed request or when the callback raises, and keeps that cause. */
  lemma LeavesOnFailure<A>(cfg: Config<A>, s: State<A>, step: Step)
    requires Inv(cfg, s) && Enabled(cfg, s, step)
    ensures |s.reqs| == |s.results| == |cfg.answers|
    ensures var c := Next(cfg, s, step).control;
      c.Leaving? || c.Raised? ==>
        if s.control.Leaving? || s.control.Raised? then c.cause == s.control.cause
        else if c.cause.Request? then c.cause.i < |s.reqs| && s.reqs[c.cause.i].Failed?
        else step == TakeRaising(c.cause.i)
  {
  }

  /** At most one request is submitted after a failure was recorded. */
  lemma LateSubmissions<A>(cfg: Config<A>, steps: seq<Step>)
    requires Final(cfg, steps).Some?
    ensures Final(cfg, steps).value.late <= 1
  {
    RunKeeps(cfg, steps);
  }

  /** Once a failure is recorded no provider call begins: whatever is sending was sending already. */
  lemma NoCallAfterFailure<A>(cfg: Config<A>, s: State<A>, step: Step, i: nat)
    requires Shape(cfg, s) && Enabled(cfg, s, step) && s.failed
    ensures Next(cfg, s, step).failed
    ensures i < |s.reqs| && Next(cfg, s, step).reqs[i].Sending? ==> s.reqs[i] == Next(cfg, s, step).reqs[i]
  {
  }

  // ----- progress ------------------------------------------------------------------------

  /** No state but a final one is stuck, and the loop never finds itself with nothing to wait for. */
  lemma NeverStuck<A>(cfg: Config<A>, s: State<A>)
    requires Inv(cfg, s) && !Terminal(s) && 1 <= cfg.concurrency
    ensures exists step :: Enabled(cfg, s, step)
    ensures s.control.Choose? && PendingSet(s.reqs) == {} && s.next < |s.reqs| ==> Next(cfg, s, Decide).control.Submit?
  {
    if s.control.Choose? && s.failed { FailureWaits(s); }
    if j: nat :| j < |s.reqs| && s.reqs[j].Waiting? { assert Enabled(cfg, s, Check(j)); }
    else if j: nat :| j < |s.reqs| && s.reqs[j].Sending? { assert Enabled(cfg, s, Succeed(j)); }
    else if j: nat :| j < |s.reqs| && s.reqs[j].Failing? { assert Enabled(cfg, s, Finish(j)); }
    else { CoordinatorMoves(cfg, s); }
  }

  lemma FailureWaits<A>(s: State<A>)
    requires FailureOk(s) && s.failed && !s.control.Leaving? && !s.control.Raised?
    ensures PendingSet(s.reqs) != {}
  {
    var i: nat :| i < |s.reqs| && FailedAt(s.reqs, i);
    assert i in PendingSet(s.reqs);
  }

  lemma CoordinatorMoves<A>(cfg: Config<A>, s: State<A>)
    requires Inv(cfg, s) && !Terminal(s)
    requires forall j: nat | j < |s.reqs| :: !s.reqs[j].Waiting? && !s.reqs[j].Sending? && !s.reqs[j].Failing?
    ensures exists step :: Enabled(cfg, s, step)
  {
    match s.control
    case Top => assert Enabled(cfg, s, EnterPass);
    case Scan(todo, found) =>
      if todo == {} { assert Enabled(cfg, s, EndScan); }
      else { var i :| i in todo; assert Enabled(cfg, s, Look(i)); }
    case Collect(batch) =>
      if batch == {} { assert Enabled(cfg, s, EndCollect); }
      else { var i :| i in batch; assert Enabled(cfg, s, Take(i)); }
    case Choose => assert Enabled(cfg, s, Decide);
    case Submit => assert Enabled(cfg, s, SubmitNext);
    case Wait =>
      var i :| i in PendingSet(s.reqs);
      assert Done(s.reqs[i]);
      assert Enabled(cfg, s, Wake);
    case Leaving(_) => assert Enabled(cfg, s, Drain);
  }

  // ----- every run ends ----------------------------------------------------------------------

  /** What is left of one request: its calls, its failing, its collection. */
  function Left(r: Request): nat {
    match r
    case Unsent => 2 * ATTEMPTS + 4
    case Waiting(used) => if used < ATTEMPTS then 2 * (ATTEMPTS - used) + 3 else 3
    case Sending(used) => if used < ATTEMPTS then 2 * (ATTEMPTS - used) + 2 else 2
    case Failing => 2
    case Collected => 0
    case _ => 1
  }

  function WorkLeft(reqs: seq<Request>): nat {
    if reqs == [] then 0 else WorkLeft(reqs[..|reqs|-1]) + Left(reqs[|reqs|-1])
  }

  lemma {:induction false} WorkUpdate(reqs: seq<Request>, i: nat, r: Request)
    requires i < |reqs|
    ensures WorkLeft(reqs[i := r]) == WorkLeft(reqs) - Left(reqs[i]) + Left(r)
  {
    var n := |reqs| - 1;
    if i < n {
      WorkUpdate(reqs[..n], i, r);
      assert reqs[i := r][..n] == reqs[..n][i := r];
    } else {
      assert reqs[i := r][..n] == reqs[..n];
    }
  }

  ghost predicate SomeDone(reqs: seq<Request>) {
    exists i: nat :: i < |reqs| && Done(reqs[i])
  }

  /** A scan that will find a finished request, or has. */
  ghost predicate WillFind<A>(s: State<A>)
    requires s.control.Scan?
  {
    s.control.found != {} || exists i: nat :: i < |s.reqs| && i in s.control.todo && Done(s.reqs[i])
  }

  /** How far the coordinator is from work, or from waiting for it. */
  ghost function Phase<A>(s: State<A>): nat {
    match s.control
    case Top => if SomeDone(s.reqs) || (s.next >= |s.reqs| && PendingSet(s.reqs) == {}) then 3 else 7
    case Scan(_, _) => if WillFind(s) then 2 else 6
    case Collect(batch) => if batch == {} then 8 else 1
    case Choose => 5
    case Submit => 4
    case Wait => 4
    case Leaving(_) => 1
    case _ => 0
  }

  ghost function Todo<A>(s: State<A>): nat {
    if s.control.Scan? then |s.control.todo| else 0
  }

  ghost predicate Decreases<A>(s': State<A>, s: State<A>) {
    || WorkLeft(s'.reqs) < WorkLeft(s.reqs)
    || (WorkLeft(s'.reqs) == WorkLeft(s.reqs) && Phase(s') < Phase(s))
    || (WorkLeft(s'.reqs) == WorkLeft(s.reqs) && Phase(s') == Phase(s) && Todo(s') < Todo(s))
  }

  /** Every step uses up work, or brings the coordinator closer to it: no run goes on for ever. */
  lemma StepDecreases<A>(cfg: Config<A>, s: State<A>, step: Step)
    requires Inv(cfg, s) && Enabled(cfg, s, step) && 1 <= cfg.concurrency
    requires !Terminal(s)
    ensures |s.reqs| == |s.results| == |cfg.answers|
    ensures Decreases(Next(cfg, s, step), s)
  {
    if step.Check? || step.Succeed? || step.Transient? || step.Fatal? || step.Finish? || step.Take?
       || step.TakeRaising? || step.SubmitNext? {
      WorkStep(cfg, s, step);
    } else {
      ControlDecreases(cfg, s, step);
    }
  }

  lemma WorkStep<A>(cfg: Config<A>, s: State<A>, step: Step)
    requires Inv(cfg, s) && Enabled(cfg, s, step)
    requires step.Check? || step.Succeed? || step.Transient? || step.Fatal? || step.Finish? || step.Take?
        || step.TakeRaising? || step.SubmitNext?
    ensures WorkLeft(Next(cfg, s, step).reqs) < WorkLeft(s.reqs)
  {
    hide ResultsOk, FailureOk, LateOk, WorkLeft, PendingSet;
    var i := if step.SubmitNext? then s.next else step.i;
    OneRequest(cfg, s, step, i);
    WorkUpdate(s.reqs, i, Next(cfg, s, step).reqs[i]);
  }

  /** The step moves one request on, which leaves less of it. */
  lemma OneRequest<A>(cfg: Config<A>, s: State<A>, step: Step, i: nat)
    requires Shape(cfg, s) && ControlOk(cfg, s) && Enabled(cfg, s, step)
    requires OnRequest(step) || step.Take? || step.TakeRaising? || step.SubmitNext?
    requires i == if step.SubmitNext? then s.next else step.i
    ensures i < |s.reqs| && var s' := Next(cfg, s, step);
            |s'.reqs| == |s.reqs| && s'.reqs == s.reqs[i := s'.reqs[i]] && Left(s'.reqs[i]) < Left(s.reqs[i])
  {
    hide PendingSet;
  }

  lemma ControlDecreases<A>(cfg: Config<A>, s: State<A>, step: Step)
    requires Inv(cfg, s) && Enabled(cfg, s, step) && 1 <= cfg.concurrency
    requires step.EnterPass? || step.Look? || step.EndScan? || step.EndCollect? || step.Decide? || step.Wake?
        || step.Drain?
    ensures Next(cfg, s, step).reqs == s.reqs
    ensures Decreases(Next(cfg, s, step), s)
  {
    hide WorkLeft, ResultsOk, LateOk, Shape, FailureOk, ControlOk, Phase, PendingSet;
    if step.EnterPass? || step.Look? || step.EndScan? {
      ScanDecreases(cfg, s, step);
    } else {
      ChoiceDecreases(cfg, s, step);
    }
  }

  lemma ScanDecreases<A>(cfg: Config<A>, s: State<A>, step: Step)
    requires Inv(cfg, s) && Enabled(cfg, s, step) && 1 <= cfg.concurrency
    requires step.EnterPass? || step.Look? || step.EndScan?
    ensures Next(cfg, s, step).reqs == s.reqs
    ensures Decreases(Next(cfg, s, step), s)
  {
    hide WorkLeft, ResultsOk, LateOk, FailureOk;
    var s' := Next(cfg, s, step);
    if step.EnterPass? && SomeDone(s.reqs) {
      var i: nat :| i < |s.reqs| && Done(s.reqs[i]);
      assert i in PendingSet(s.reqs);
    }
    if step.Look? && WillFind(s) && s.control.found == {} {
      var j: nat :| j < |s.reqs| && j in s.control.todo && Done(s.reqs[j]);
      assert j == step.i || j in s'.control.todo;
    }
  }

  lemma ChoiceDecreases<A>(cfg: Config<A>, s: State<A>, step: Step)
    requires Inv(cfg, s) && Enabled(cfg, s, step) && 1 <= cfg.concurrency
    requires step.EndCollect? || step.Decide? || step.Wake? || step.Drain?
    ensures Next(cfg, s, step).reqs == s.reqs
    ensures Decreases(Next(cfg, s, step), s)
  {
    hide WorkLeft, ResultsOk, LateOk;
    if step.Decide? && s.failed {
      FailureWaits(s);
    }
  }

  /** The state a schedule reaches in `n` steps from step `from`, stopping at a final state. */
  ghost function Play<A>(cfg: Config<A>, schedule: (nat, State<A>) -> Step, s: State<A>, from: nat, n: nat): State<A>
    decreases n
  {
    if n == 0 || Terminal(s) || |s.reqs| != |s.results| || |s.results| != |cfg.answers|
       || !Enabled(cfg, s, schedule(from, s)) then s
    else Play(cfg, schedule, Next(cfg, s, schedule(from, s)), from + 1, n - 1)
  }

  /** Whatever enabled step is picked each time, the loop ends. */
  lemma {:induction false} EveryScheduleEnds<A(!new)>(cfg: Config<A>, schedule: (nat, State<A>) -> Step, s: State<A>,
                                                      from: nat)
    returns (n: nat)
    requires 1 <= cfg.concurrency && Inv(cfg, s)
    requires forall k: nat, t: State<A> | Inv(cfg, t) && !Terminal(t) :: Enabled(cfg, t, schedule(k, t))
    ensures Terminal(Play(cfg, schedule, s, from, n))
    decreases WorkLeft(s.reqs), Phase(s), Todo(s)
  {
    hide Inv, Enabled, Next, Phase, Todo, WorkLeft;
    if Terminal(s) {
      n := 0;
    } else {
      StepDecreases(cfg, s, schedule(from, s));
      StepKeeps(cfg, s, schedule(from, s));
      var m := EveryScheduleEnds(cfg, schedule, Next(cfg, s, schedule(from, s)), from + 1);
      n := m + 1;
    }
  }

  /** What a schedule plays is a run. */
  lemma {:induction false} PlayIsRun<A(!new)>(cfg: Config<A>, schedule: (nat, State<A>) -> Step, s: State<A>,
                                              from: nat, n: nat, steps: seq<Step>) returns (more: seq<Step>)
    requires Final(cfg, steps) == Some(s)
    ensures Final(cfg, more) == Some(Play(cfg, schedule, s, from, n))
    decreases n
  {
    hide Enabled, Next;
    if n == 0 || Terminal(s) || |s.reqs| != |s.results| || |s.results| != |cfg.answers|
       || !Enabled(cfg, s, schedule(from, s)) {
      more := steps;
    } else {
      var longer := steps + [schedule(from, s)];
      assert longer[..|longer|-1] == steps;
      more := PlayIsRun(cfg, schedule, Next(cfg, s, schedule(from, s)), from + 1, n - 1, longer);
    }
  }

  /** So every schedule gives a run that ends, returned or raised. */
  lemma EveryRunCanEnd<A(!new)>(cfg: Config<A>, schedule: (nat, State<A>) -> Step) returns (steps: seq<Step>)
    requires 1 <= cfg.concurrency
    requires forall k: nat, t: State<A> | Inv(cfg, t) && !Terminal(t) :: Enabled(cfg, t, schedule(k, t))
    ensures Final(cfg, steps).Some? && Terminal(Final(cfg, steps).value)
  {
    hide Inv, Enabled, Next, Play, Terminal;
    InitOk(cfg);
    var n := EveryScheduleEnds(cfg, schedule, Init(cfg), 0);
    steps := PlayIsRun(cfg, schedule, Init(cfg), 0, n, []);
  }

  // ----- the batches, and the sequential path ---------------------------------------------

  function Flatten<V>(xs: seq<seq<V>>): seq<V> {
    if xs == [] then [] else Flatten(xs[..|xs|-1]) + xs[|xs|-1]
  }

  /** `embed_batch`'s split: batches of at most `size`, none empty, that join to the texts. */
  method Batches<T>(texts: seq<T>, size: nat) returns (batches: seq<seq<T>>)
    requires 1 <= size
    ensures Flatten(batches) == texts
    ensures forall i | 0 <= i < |batches| :: 1 <= |batches[i]| <= size
    ensures forall i | 0 <= i < |batches| - 1 :: |batches[i]| == size
  {
    batches := [];
    var i := 0;
    while i < |texts|
      invariant 0 <= i
      invariant Flatten(batches) == texts[..if i < |texts| then i else |texts|]
      invariant forall k | 0 <= k < |batches| :: 1 <= |batches[k]| <= size
      invariant forall k | 0 <= k < |batches| :: k < |batches| - 1 || i < |texts| ==> |batches[k]| == size
    {
      var end := if i + size < |texts| then i + size else |texts|;
      assert texts[..end] == texts[..i] + texts[i..end];
      assert (batches + [texts[i..end]])[..|batches|] == batches;
      batches := batches + [texts[i..end]];
      i := i + size;
    }
    assert texts[..|texts|] == texts;
  }

  /** How a batch ends: its vectors and a callback that passes, or its request fails, or the callback raises. */
  datatype Ending<V, E> =
    | Passes(vectors: seq<V>)
    | RequestFails(error: E)
    | CallbackRaises(vectors: seq<V>, error: E)

  /** What the sequential path gives. */
  function Sequential<V, E>(endings: seq<Ending<V, E>>): Result<seq<V>, E> {
    if endings == [] then Success([])
    else
      var before, last := Sequential(endings[..|endings|-1]), endings[|endings|-1];
      if before.Failure? then before
      else if last.Passes? then Success(before.value + last.vectors)
      else Failure(last.error)
  }

  /** The sequential path: batches in order, stopping at the first failure. */
  method EmbedSequential<V, E>(endings: seq<Ending<V, E>>) returns (r: Result<seq<V>, E>)
    ensures r == Sequential(endings)
  {
    var out: seq<V> := [];
    for i := 0 to |endings|
      invariant Sequential(endings[..i]) == Success(out)
    {
      assert endings[..i+1][..i] == endings[..i];
      if endings[i].RequestFails? {
        SequentialStops(endings, i + 1);
        return Failure(endings[i].error);
      }
      out := out + endings[i].vectors;
      if endings[i].CallbackRaises? {
        SequentialStops(endings, i + 1);
        return Failure(endings[i].error);
      }
    }
    assert endings[..|endings|] == endings;
    r := Success(out);
  }

  lemma {:induction false} SequentialStops<V, E>(endings: seq<Ending<V, E>>, i: nat)
    requires i <= |endings| && Sequential(endings[..i]).Failure?
    ensures Sequential(endings) == Sequential(endings[..i])
  {
    var n := |endings|;
    if i == n {
      assert endings[..n] == endings;
    } else {
      assert endings[..n-1][..i] == endings[..i];
      SequentialStops(endings[..n-1], i);
    }
  }

  /** All vectors in input order when every batch passes; otherwise the error of the first that does not. */
  lemma {:induction false} SequentialIs<V, E>(endings: seq<Ending<V, E>>)
    ensures var r := Sequential(endings);
      && (r.Success? <==> forall i | 0 <= i < |endings| :: endings[i].Passes?)
      && (r.Success? ==> forall answers | AnsweredBy(endings, answers) :: r.value == Flatten(answers))
      && (r.Failure? ==> exists i: nat :: FirstToFail(endings, i) && r.error == endings[i].error)
  {
    if endings != [] {
      var n := |endings| - 1;
      var before := endings[..n];
      SequentialIs(before);
      if Sequential(before).Failure? {
        var i: nat :| FirstToFail(before, i) && Sequential(before).error == before[i].error;
        assert FirstToFail(endings, i);
      } else if endings[n].Passes? {
        forall answers | AnsweredBy(endings, answers) ensures Sequential(endings).value == Flatten(answers) {
          assert AnsweredBy(before, answers[..n]);
        }
      } else {
        assert FirstToFail(endings, n);
      }
    }
  }

  ghost predicate AnsweredBy<V, E>(endings: seq<Ending<V, E>>, answers: seq<seq<V>>) {
    |answers| == |endings| && forall i | 0 <= i < |endings| :: endings[i] == Passes(answers[i])
  }

  predicate FirstToFail<V, E>(endings: seq<Ending<V, E>>, i: nat) {
    i < |endings| && !endings[i].Passes? && forall j | 0 <= j < i :: endings[j].Passes?
  }

  // ----- the concurrent path against the sequential one -------------------------------------------

  /** The step goes as the request and the callback of the sequential path would. */
  ghost predicate StepFollows<V, E>(s: State<seq<V>>, step: Step, endings: seq<Ending<V, E>>) {
    match step
    case Finish(i) => i < |endings| && endings[i].RequestFails?
    case Succeed(i) => i < |endings| && !endings[i].RequestFails?
    case Take(i) => i < |endings| && i < |s.reqs| && (s.reqs[i].Answered? ==> endings[i].Passes?)
    case TakeRaising(i) => i < |endings| && endings[i].CallbackRaises?
    case _ => true
  }

  /** The run meets these endings, and the provider's answers are their vectors. */
  ghost predicate Follows<V, E>(cfg: Config<seq<V>>, steps: seq<Step>, endings: seq<Ending<V, E>>) {
    if steps == [] then SameVectors(cfg, endings)
    else
      var before := steps[..|steps|-1];
      && Follows(cfg, before, endings) && Final(cfg, before).Some?
      && StepFollows(Final(cfg, before).value, steps[|steps|-1], endings)
  }

  ghost predicate SameVectors<V, E>(cfg: Config<seq<V>>, endings: seq<Ending<V, E>>) {
    && |endings| == |cfg.answers|
    && forall i | 0 <= i < |endings| && !endings[i].RequestFails? :: endings[i].vectors == cfg.answers[i]
  }

  /** What the state knows of the endings. */
  ghost predicate Known<V, E>(s: State<seq<V>>, endings: seq<Ending<V, E>>) {
    && |s.reqs| == |s.results| == |endings|
    && RequestsKnown(s, endings) && ResultsKnown(s, endings) && CauseKnown(s, endings)
  }

  ghost predicate RequestsKnown<V, E>(s: State<seq<V>>, endings: seq<Ending<V, E>>) {
    forall i | 0 <= i < |s.reqs| && i < |endings| ::
      && (s.reqs[i].Answered? ==> !endings[i].RequestFails?)
      && (s.reqs[i].Failed? ==> endings[i].RequestFails?)
  }

  ghost predicate ResultsKnown<V, E>(s: State<seq<V>>, endings: seq<Ending<V, E>>) {
    forall i: nat | i < |s.results| && i < |endings| && s.results[i].Some? && !CalledBack(s, i) :: endings[i].Passes?
  }

  ghost predicate CauseKnown<V, E>(s: State<seq<V>>, endings: seq<Ending<V, E>>) {
    s.control.Leaving? || s.control.Raised? ==> CauseIs(s.control.cause, endings)
  }

  predicate CauseIs<V, E>(cause: Cause, endings: seq<Ending<V, E>>) {
    cause.i < |endings| && if cause.Request? then endings[cause.i].RequestFails? else endings[cause.i].CallbackRaises?
  }

  /** The loop left because the callback raised after request `i`. */
  predicate CalledBack<A>(s: State<A>, i: nat) {
    (s.control.Leaving? || s.control.Raised?) && s.control.cause == Callback(i)
  }

  lemma KnownStep<V, E>(cfg: Config<seq<V>>, s: State<seq<V>>, step: Step, endings: seq<Ending<V, E>>)
    requires Shape(cfg, s) && ControlOk(cfg, s) && Enabled(cfg, s, step)
    requires Known(s, endings) && StepFollows(s, step, endings)
    ensures Known(Next(cfg, s, step), endings)
  {
    hide Next, Enabled, StepFollows, ControlOk, RequestsKnown, ResultsKnown, CauseKnown;
    ShapeStep(cfg, s, step);
    RequestsStep(cfg, s, step, endings);
    ResultsFollow(cfg, s, step, endings);
    CauseStep(cfg, s, step, endings);
  }

  lemma RequestsStep<V, E>(cfg: Config<seq<V>>, s: State<seq<V>>, step: Step, endings: seq<Ending<V, E>>)
    requires Shape(cfg, s) && Enabled(cfg, s, step) && Known(s, endings) && StepFollows(s, step, endings)
    ensures RequestsKnown(Next(cfg, s, step), endings)
  {
    hide PendingSet, ResultsKnown, CauseKnown;
  }

  lemma ResultsFollow<V, E>(cfg: Config<seq<V>>, s: State<seq<V>>, step: Step, endings: seq<Ending<V, E>>)
    requires Shape(cfg, s) && Enabled(cfg, s, step) && Known(s, endings) && StepFollows(s, step, endings)
    ensures ResultsKnown(Next(cfg, s, step), endings)
  {
    hide PendingSet, RequestsKnown, CauseKnown;
  }

  lemma CauseStep<V, E>(cfg: Config<seq<V>>, s: State<seq<V>>, step: Step, endings: seq<Ending<V, E>>)
    requires Shape(cfg, s) && ControlOk(cfg, s) && Enabled(cfg, s, step)
    requires Known(s, endings) && StepFollows(s, step, endings)
    ensures CauseKnown(Next(cfg, s, step), endings)
  {
    hide PendingSet, ResultsKnown;
  }

  lemma {:induction false} RunFollows<V, E>(cfg: Config<seq<V>>, steps: seq<Step>, endings: seq<Ending<V, E>>)
    requires Final(cfg, steps).Some? && Follows(cfg, steps, endings)
    ensures SameVectors(cfg, endings) && Known(Final(cfg, steps).value, endings)
  {
    hide Shape, ControlOk, ResultsOk, FailureOk, LateOk, Next, Enabled, StepFollows, Known;
    if steps == [] {
      InitFollows(cfg, endings);
    } else {
      RunFollows(cfg, steps[..|steps|-1], endings);
      RunKeeps(cfg, steps[..|steps|-1]);
      KnownStep(cfg, Final(cfg, steps[..|steps|-1]).value, steps[|steps|-1], endings);
    }
  }

  lemma InitFollows<V, E>(cfg: Config<seq<V>>, endings: seq<Ending<V, E>>)
    ensures |endings| == |cfg.answers| ==> Known(Init(cfg), endings)
  {
  }

  /**
   * A finished concurrent run returns exactly when the sequential path would on the same
   * endings, and then the same vectors in the same order; what it raises otherwise is what
   * one of those requests failed with, or what the callback raised after one.
   */
  lemma ConcurrentIsSequential<V, E>(cfg: Config<seq<V>>, steps: seq<Step>, endings: seq<Ending<V, E>>)
    requires Final(cfg, steps).Some? && Follows(cfg, steps, endings)
    ensures var s, r := Final(cfg, steps).value, Sequential(endings);
      && (Terminal(s) ==> (s.control.Returned? <==> r.Success?))
      && (s.control.Returned? ==> r == Success(Flatten(Values(s.results))))
      && (s.control.Raised? ==> CauseIs(s.control.cause, endings))
  {
    hide Inv, Next, Enabled, Follows;
    RunFollows(cfg, steps, endings);
    RunKeeps(cfg, steps);
    SequentialIs(endings);
    var s := Final(cfg, steps).value;
    if s.control.Returned? {
      AllAnswered(cfg, s);
      OutcomeIsWholeOrRealFailure(cfg, steps);
      assert AnsweredBy(endings, cfg.answers);
    }
  }

  // ----- every run has its endings ------------------------------------------------------------------

  /** The steps that settle how request `i` ends, or rely on it. */
  predicate Settles(step: Step, i: nat) {
    step == Finish(i) || step == Succeed(i) || step == Take(i) || step == TakeRaising(i)
  }

  predicate Early(r: Request) {
    r.Unsent? || r.Waiting? || r.Sending? || r.Failing?
  }

  lemma EarlyStep<A>(cfg: Config<A>, s: State<A>, step: Step, i: nat)
    requires Inv(cfg, s) && Enabled(cfg, s, step) && i < |cfg.answers|
    ensures |s.reqs| == |s.results| == |cfg.answers|
    ensures var r, r' := s.reqs[i], Next(cfg, s, step).reqs[i];
      && (Early(r') ==> Early(r) && !Settles(step, i))
      && (r'.Answered? ==> (r.Answered? && !Settles(step, i)) || (Early(r) && step == Succeed(i)))
  {
    hide PendingSet, ResultsOk, FailureOk, ControlOk, LateOk;
  }

  /** A request that has not ended was not settled before; one that was answered was not collected. */
  lemma {:induction false} NotSettled<A>(cfg: Config<A>, steps: seq<Step>, i: nat)
    requires Final(cfg, steps).Some? && i < |cfg.answers|
    ensures |Final(cfg, steps).value.reqs| == |cfg.answers|
    ensures var r := Final(cfg, steps).value.reqs[i];
      && (Early(r) ==> forall k | 0 <= k < |steps| :: !Settles(steps[k], i))
      && (r.Answered? ==> forall k | 0 <= k < |steps| :: Settles(steps[k], i) ==> steps[k] == Succeed(i))
  {
    hide Inv, Next, Enabled, Early, Settles;
    RunKeeps(cfg, steps);
    SameLength(cfg, Final(cfg, steps).value);
    if steps == [] {
      StartsEarly(cfg, i);
    } else {
      var before := steps[..|steps|-1];
      NotSettled(cfg, before, i);
      RunKeeps(cfg, before);
      SameLength(cfg, Final(cfg, before).value);
      EarlyStep(cfg, Final(cfg, before).value, steps[|steps|-1], i);
      assert forall k | 0 <= k < |steps| - 1 :: steps[k] == before[k];
    }
  }

  lemma StartsEarly<A>(cfg: Config<A>, i: nat)
    requires i < |cfg.answers|
    ensures !Init(cfg).reqs[i].Answered?
  {
  }

  lemma SameLength<A>(cfg: Config<A>, s: State<A>)
    requires Inv(cfg, s)
    ensures |s.reqs| == |s.results| == |cfg.answers|
  {
  }

  /** An ending that no step relied on may as well be another. */
  lemma {:induction false} ChangeOne<V, E>(cfg: Config<seq<V>>, steps: seq<Step>, endings: seq<Ending<V, E>>, i: nat,
                                           ending: Ending<V, E>)
    requires Follows(cfg, steps, endings) && |endings| == |cfg.answers| && i < |endings|
    requires !ending.RequestFails? ==> ending.vectors == cfg.answers[i]
    requires forall k | 0 <= k < |steps| ::
               Settles(steps[k], i) ==> steps[k] == Succeed(i) && ending.CallbackRaises?
    ensures Follows(cfg, steps, endings[i := ending])
  {
    if steps != [] {
      var n := |steps| - 1;
      assert forall k | 0 <= k < n :: steps[k] == steps[..n][k];
      ChangeOne(cfg, steps[..n], endings, i, ending);
      assert Settles(steps[n], i) ==> steps[n] == Succeed(i) && ending.CallbackRaises?;
    }
  }

  /** Every run follows some endings, so the comparison is of every interleaving. */
  lemma {:induction false} SomeEndings<V, E>(cfg: Config<seq<V>>, steps: seq<Step>, error: E)
    returns (endings: seq<Ending<V, E>>)
    requires Final(cfg, steps).Some?
    ensures Follows(cfg, steps, endings) && |endings| == |cfg.answers|
    ensures forall i: nat | i < |endings| ::
              && (endings[i].RequestFails? ==> Finish(i) in steps)
              && (endings[i].CallbackRaises? ==> TakeRaising(i) in steps)
  {
    hide Inv, Next, Enabled;
    if steps == [] {
      endings := seq(|cfg.answers|, i requires 0 <= i < |cfg.answers| => Passes(cfg.answers[i]));
    } else {
      var n := |steps| - 1;
      var before, step := steps[..n], steps[n];
      assert steps == before + [step];
      endings := SomeEndings(cfg, before, error);
      RunKeeps(cfg, before);
      var s := Final(cfg, before).value;
      SameLength(cfg, s);
      if step.Finish? || step.Succeed? || step.Take? || step.TakeRaising? {
        StepsOn(cfg, s, step);
        NotSettled(cfg, before, step.i);
        if step.Finish? {
          ChangeOne(cfg, before, endings, step.i, RequestFails(error));
          endings := endings[step.i := RequestFails(error)];
        } else if step.TakeRaising? {
          ChangeOne(cfg, before, endings, step.i, CallbackRaises(cfg.answers[step.i], error));
          endings := endings[step.i := CallbackRaises(cfg.answers[step.i], error)];
        }
      }
    }
  }

  /** What a settling step finds its request at. */
  lemma StepsOn<A>(cfg: Config<A>, s: State<A>, step: Step)
    requires |s.reqs| == |s.results| == |cfg.answers| && Enabled(cfg, s, step)
    requires step.Finish? || step.Succeed? || step.Take? || step.TakeRaising?
    ensures step.i < |s.reqs|
    ensures step.Finish? || step.Succeed? ==> Early(s.reqs[step.i])
    ensures step.TakeRaising? ==> s.reqs[step.i].Answered?
  {
  }

  lemma AllAnswered<A>(cfg: Config<A>, s: State<A>)
    requires Inv(cfg, s) && s.control.Returned?
    ensures |s.results| == |s.reqs| && forall i: nat | i < |s.results| :: s.results[i].Some?
  {
    ReturnedWhole(cfg, s);
    forall i: nat | i < |s.results| ensures s.results[i].Some? {
      assert i !in PendingSet(s.reqs);
      assert s.reqs[i].Collected?;
    }
  }
}
