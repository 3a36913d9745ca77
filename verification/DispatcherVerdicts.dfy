/** Which verdict an outcome of Spawn and Wait gets, counted over whole runs, and what is acked. */
module DispatcherVerdicts {
  import opened Specs
  import opened DispatchQueue
  import opened Dispatcher
  import opened DispatcherSafety
  import opened DispatcherRuns

  datatype Ending = Completion | Cancelling | Failing

  /**
   * Only a worker that ended as completed counts as a completion. One that ended as cancelled, and a
   * Wait that gave up on a cancelled context or after Stop, count as cancelled; all else has failed.
   */
  predicate Ends(e: Ending, o: Outcome, stopped: bool) {
    match e
    case Completion => o == Terminal(Completed)
    case Cancelling => o == Terminal(Cancelled) || o == WaitError(true) || (o.WaitError? && stopped)
    case Failing =>
      || o == SpawnError || (o == WaitError(false) && !stopped)
      || (o.Terminal? && !o.status.Completed? && !o.status.Cancelled?)
  }

  /** The Finish steps of the run that end so. */
  function Endings(cfg: Config, n: nat, steps: seq<Step>, e: Ending): nat {
    if steps == [] then 0
    else
      var front, step := steps[..|steps| - 1], steps[|steps| - 1];
      Endings(cfg, n, front, e)
      + (if Enabled(cfg, Run(cfg, Init(n), front), step) && step.Work? && step.act.Finish?
            && Ends(e, step.act.outcome, Stop in front) then 1 else 0)
  }

  lemma {:induction false} StopIsSeen(cfg: Config, n: nat, steps: seq<Step>)
    ensures Run(cfg, Init(n), steps).ctxDone <==> Stop in steps
  {
    if steps != [] {
      var front, step := steps[..|steps| - 1], steps[|steps| - 1];
      hide Do, Enabled;
      StopIsSeen(cfg, n, front);
      assert steps == front + [step];
      if Enabled(cfg, Run(cfg, Init(n), front), step) {
        StepStops(cfg, Run(cfg, Init(n), front), step);
      }
    }
  }

  lemma StepStops(cfg: Config, s: System, step: Step)
    requires Enabled(cfg, s, step)
    ensures Do(cfg, s, step).ctxDone == (s.ctxDone || step == Stop)
  {
    hide CanAct, Record, DispatchQueue.Receive, Forget, DeadLetter, Send, Plan, Judge, NextAttempt, LifeOf;
  }

  lemma FinishCounts(s: System, i: nat, o: Outcome)
    requires i < |s.workers| && s.workers[i].Driving?
    ensures var t := DoFinish(s, i, o);
      && t.stats.completed == s.stats.completed + (if Ends(Completion, o, s.ctxDone) then 1 else 0)
      && t.stats.cancelled == s.stats.cancelled + (if Ends(Cancelling, o, s.ctxDone) then 1 else 0)
      && t.stats.failed == s.stats.failed + (if Ends(Failing, o, s.ctxDone) then 1 else 0)
  {
  }

  lemma OthersCountNothing(cfg: Config, s: System, step: Step)
    requires Enabled(cfg, s, step) && !(step.Work? && step.act.Finish?)
    ensures var t := Do(cfg, s, step);
      t.stats.completed == s.stats.completed && t.stats.cancelled == s.stats.cancelled
          && t.stats.failed == s.stats.failed
  {
    hide Record, DispatchQueue.Receive, Forget, DeadLetter, Send, Plan, Judge, NextAttempt, LifeOf, DoFinish;
  }

  /** In every run the three counters are the numbers of Spawns and Waits that ended so. */
  lemma {:induction false} VerdictsAreCounted(cfg: Config, n: nat, steps: seq<Step>)
    ensures var stats := Run(cfg, Init(n), steps).stats;
      && stats.completed == Endings(cfg, n, steps, Completion)
      && stats.cancelled == Endings(cfg, n, steps, Cancelling)
      && stats.failed == Endings(cfg, n, steps, Failing)
  {
    if steps != [] {
      var front, step := steps[..|steps| - 1], steps[|steps| - 1];
      var before := Run(cfg, Init(n), front);
      VerdictsAreCounted(cfg, n, front);
      StopIsSeen(cfg, n, front);
      hide Ends;
      if Enabled(cfg, before, step) {
        if step.Work? && step.act.Finish? {
          FinishCounts(before, step.worker, step.act.outcome);
        } else {
          OthersCountNothing(cfg, before, step);
        }
      }
      hide Do;
    }
  }

  // ------------------------------------------------------------------ what is acked

  /** Worker i's completion of a spec with that id. */
  predicate CompletesId(s: System, step: Step, id: Uuid) {
    && step.Work? && step.act == Finish(Terminal(Completed)) && step.worker < |s.workers|
    && s.workers[step.worker].Driving? && s.workers[step.worker].spec.executionId == id
  }

  /** How often a worker that ran a spec with that id ended as completed. */
  function Completions(cfg: Config, n: nat, steps: seq<Step>, id: Uuid): nat {
    if steps == [] then 0
    else
      var front := steps[..|steps| - 1];
      Completions(cfg, n, front, id) + (if CompletesId(Run(cfg, Init(n), front), steps[|steps| - 1], id) then 1 else 0)
  }

  function AckAhead(pc: Pc, id: Uuid): int {
    if pc.Acking? then Is(pc.spec, id) else 0
  }

  function AcksAhead(workers: seq<Pc>, id: Uuid): int {
    if workers == [] then 0 else AckAhead(workers[0], id) + AcksAhead(workers[1..], id)
  }

  lemma {:induction false} AcksUpdate(workers: seq<Pc>, i: nat, pc: Pc, id: Uuid)
    requires i < |workers|
    ensures AcksAhead(workers[i := pc], id) == AcksAhead(workers, id) - AckAhead(workers[i], id) + AckAhead(pc, id)
  {
    if i == 0 {
      assert workers[i := pc][1..] == workers[1..];
    } else {
      assert workers[i := pc][1..] == workers[1..][i - 1 := pc];
      AcksUpdate(workers[1..], i - 1, pc, id);
    }
  }

  lemma {:induction workers} NoAcksAhead(workers: seq<Pc>, id: Uuid)
    requires forall pc :: pc in workers ==> !pc.Acking?
    ensures AcksAhead(workers, id) == 0
  {
  }

  /** What a worker's step does to the acks, done and ahead. */
  ghost predicate Acks(s: System, t: System, i: nat, act: Act, id: Uuid)
    requires i < |s.workers|
  {
    && |t.workers| == |s.workers| && t.workers == s.workers[i := t.workers[i]]
    && t.log.acked[id] + AckAhead(t.workers[i], id)
       == s.log.acked[id] + AckAhead(s.workers[i], id) + (if CompletesId(s, Work(i, act), id) then 1 else 0)
  }

  lemma FinishAcks(s: System, i: nat, o: Outcome, id: Uuid)
    requires i < |s.workers| && s.workers[i].Driving?
    ensures Acks(s, DoFinish(s, i, o), i, Finish(o), id)
  {
  }

  lemma AcknowledgeAcks(s: System, i: nat, id: Uuid)
    requires Owned(s) && i < |s.workers| && s.workers[i].Acking?
    ensures Acks(s, DoAcknowledge(s, i), i, Acknowledge, id)
  {
  }

  lemma OtherActsAck(cfg: Config, s: System, i: nat, act: Act, id: Uuid)
    requires Enabled(cfg, s, Work(i, act)) && !act.Finish? && !act.Acknowledge?
    ensures Acks(s, DoWork(cfg, s, i, act), i, act, id)
  {
    hide Record, DispatchQueue.Receive, Forget, DeadLetter, Send, NextAttempt, LifeOf;
  }

  lemma StepAcks(cfg: Config, s: System, step: Step, id: Uuid)
    requires Owned(s) && Enabled(cfg, s, step)
    ensures var t := Do(cfg, s, step);
      t.log.acked[id] + AcksAhead(t.workers, id)
      == s.log.acked[id] + AcksAhead(s.workers, id) + (if CompletesId(s, step, id) then 1 else 0)
  {
    hide Owned, DoFinish, DoAcknowledge;
    if step.Work? {
      var i, t := step.worker, Do(cfg, s, step);
      match step.act {
        case Finish(o) => FinishAcks(s, i, o, id);
        case Acknowledge => AcknowledgeAcks(s, i, id);
        case _ => OtherActsAck(cfg, s, i, step.act, id);
      }
      assert Acks(s, t, i, step.act, id);
      AcksUpdate(s.workers, i, t.workers[i], id);
    }
  }

  /** In every run an id is acked as often as a worker with it ended as completed, or its Ack is ahead. */
  lemma {:induction false} AcksAreCompletions(cfg: Config, n: nat, steps: seq<Step>, id: Uuid)
    requires !Run(cfg, Init(n), steps).log.clash
    ensures var s := Run(cfg, Init(n), steps);
      s.log.acked[id] + AcksAhead(s.workers, id) == Completions(cfg, n, steps, id)
  {
    if steps == [] {
      NoAcksAhead(Init(n).workers, id);
    } else {
      var front, step := steps[..|steps| - 1], steps[|steps| - 1];
      var before := Run(cfg, Init(n), front);
      if before.log.clash && Enabled(cfg, before, step) {
        ClashStays(cfg, before, step);
      }
      hide Do, Init, Safe, Owned, AcksAhead;
      AcksAreCompletions(cfg, n, front, id);
      if Enabled(cfg, before, step) {
        SoundAlways(cfg, n, front);
        SafeIsOwned(cfg, before);
        StepAcks(cfg, before, step, id);
      }
    }
  }

  lemma OthersHoldStill(cfg: Config, s: System, step: Step, i: nat)
    requires Enabled(cfg, s, step) && i < |s.workers| && !(step.Work? && step.worker == i)
    ensures var t := Do(cfg, s, step); i < |t.workers| && t.workers[i] == s.workers[i]
  {
    hide CanAct, Record, DispatchQueue.Receive, Forget, DeadLetter, Send, Plan, Judge, NextAttempt, LifeOf;
  }

  /** What worker i is about after `steps`. */
  predicate Stands(cfg: Config, n: nat, steps: seq<Step>, i: nat, pc: Pc) {
    var s := Run(cfg, Init(n), steps);
    i < |s.workers| && s.workers[i] == pc
  }

  /** No spec is accepted under an id that a worker has in flight. */
  lemma OwnedIsNotAccepted(cfg: Config, s: System, step: Step, i: nat)
    requires Safe(cfg, s) && Enabled(cfg, s, step) && i < |s.workers| && Owns(s.workers[i])
    ensures var id := s.workers[i].spec.executionId;
      Occurs(Do(cfg, s, step).log.accepted, id) == Occurs(s.log.accepted, id)
  {
    var id := s.workers[i].spec.executionId;
    match step
    case FinishEnqueue(spec) =>
      assert Here(s, spec.executionId) == 0;
      OwnedIsHere(s, i);
      OccursAppend(s.log.accepted, spec, id);
    case Work(j, act) => WorkAcceptsNothing(cfg, s, j, act);
    case _ =>
  }

  lemma OwnedIsHere(s: System, i: nat)
    requires Owned(s) && i < |s.workers| && Owns(s.workers[i])
    ensures Here(s, s.workers[i].spec.executionId) >= 1
  {
    HandsNonNegative(s.workers, s.workers[i].spec.executionId);
    OccursNonNegative(s.q.pending, s.workers[i].spec.executionId);
  }

  /** Only a completion leads a worker to Ack. */
  lemma OnlyCompletionLeadsToAck(cfg: Config, s: System, i: nat, act: Act)
    requires Enabled(cfg, s, Work(i, act)) && DoWork(cfg, s, i, act).workers[i].Acking?
    ensures act == Finish(Terminal(Completed)) && s.workers[i] == Driving(DoWork(cfg, s, i, act).workers[i].spec)
  {
    hide Record, DispatchQueue.Receive, Forget, DeadLetter, Send, NextAttempt, LifeOf;
  }

  /** A step after which worker i is about to Ack is its completion, or another's step before which it was so too. */
  lemma StepBeforeAck(cfg: Config, s: System, step: Step, i: nat, spec: WorkerSpec)
    requires Safe(cfg, s) && Enabled(cfg, s, step)
    requires i < |Do(cfg, s, step).workers| && Do(cfg, s, step).workers[i] == Acking(spec)
    ensures i < |s.workers|
      && s.workers[i] == if step == Work(i, Finish(Terminal(Completed))) then Driving(spec) else Acking(spec)
    ensures Occurs(Do(cfg, s, step).log.accepted, spec.executionId) == Occurs(s.log.accepted, spec.executionId)
  {
    hide Do, Safe, Owns;
    StepKeepsWorkers(cfg, s, step);
    if step.Work? && step.worker == i {
      WorkBeforeAck(cfg, s, step, spec);
    } else {
      OthersHoldStill(cfg, s, step, i);
      AckingIsNotAccepted(cfg, s, step, i);
    }
  }

  lemma WorkBeforeAck(cfg: Config, s: System, step: Step, spec: WorkerSpec)
    requires Enabled(cfg, s, step) && step.Work?
    requires step.worker < |Do(cfg, s, step).workers| && Do(cfg, s, step).workers[step.worker] == Acking(spec)
    ensures step.act == Finish(Terminal(Completed)) && s.workers[step.worker] == Driving(spec)
    ensures Do(cfg, s, step).log.accepted == s.log.accepted
  {
    hide DoWork;
    OnlyCompletionLeadsToAck(cfg, s, step.worker, step.act);
    WorkAcceptsNothing(cfg, s, step.worker, step.act);
  }

  lemma AckingIsNotAccepted(cfg: Config, s: System, step: Step, i: nat)
    requires Safe(cfg, s) && Enabled(cfg, s, step) && i < |s.workers| && s.workers[i].Acking?
    ensures var id := s.workers[i].spec.executionId;
      Occurs(Do(cfg, s, step).log.accepted, id) == Occurs(s.log.accepted, id)
  {
    OwnedIsNotAccepted(cfg, s, step, i);
  }

  /**
   * A worker about to Ack a spec has just seen its worker process end as completed, and has done nothing
   * since; nor has the spec's id been accepted again in between.
   */
  lemma {:induction false} AckFollowsCompletion(cfg: Config, n: nat, steps: seq<Step>, i: nat, spec: WorkerSpec)
    returns (j: nat)
    requires !Run(cfg, Init(n), steps).log.clash && Stands(cfg, n, steps, i, Acking(spec))
    ensures j < |steps| && steps[j] == Work(i, Finish(Terminal(Completed)))
      && Stands(cfg, n, steps[..j], i, Driving(spec))
    ensures forall k :: j < k <= |steps| ==> Stands(cfg, n, steps[..k], i, Acking(spec))
    ensures Occurs(Run(cfg, Init(n), steps[..j]).log.accepted, spec.executionId)
            == Occurs(Run(cfg, Init(n), steps).log.accepted, spec.executionId)
  {
    hide Do, Enabled, Safe, Occurs, Init;
    NobodyAcksAtFirst(cfg, n, i, spec);
    assert steps[..|steps|] == steps;
    var front, step := steps[..|steps| - 1], steps[|steps| - 1];
    var before := Run(cfg, Init(n), front);
    if !Enabled(cfg, before, step) {
      j := AckFollowsCompletion(cfg, n, front, i, spec);
    } else {
      if before.log.clash {
        ClashStays(cfg, before, step);
      }
      SoundAlways(cfg, n, front);
      StepBeforeAck(cfg, before, step, i, spec);
      if step == Work(i, Finish(Terminal(Completed))) {
        return |front|;
      }
      j := AckFollowsCompletion(cfg, n, front, i, spec);
    }
    hide Run, Stands;
    assert front[..j] == steps[..j];
    assert forall k :: j < k < |steps| ==> steps[..k] == front[..k];
  }

  lemma NobodyAcksAtFirst(cfg: Config, n: nat, i: nat, spec: WorkerSpec)
    ensures !Stands(cfg, n, [], i, Acking(spec))
  {
  }
}
