/** Where the specs in the system come from: each is an accepted one with nothing changed but its attempt. */
module DispatcherOrigins {
  import opened Specs
  import opened DispatchQueue
  import opened Dispatcher
  import opened DispatcherSafety
  import opened DispatcherRuns

  predicate Carries(pc: Pc, p: WorkerSpec) {
    (Holds(pc) || Owns(pc)) && pc.spec == p
  }

  ghost predicate CarriedBy(s: System, i: nat, p: WorkerSpec) {
    i < |s.workers| && Carries(s.workers[i], p)
  }

  ghost predicate InFlight(s: System, id: Uuid, p: WorkerSpec) {
    id in s.q.inFlight && s.q.inFlight[id] == p
  }

  /** `p` is in the channel, with a worker or in the in-flight map. */
  ghost predicate Live(s: System, p: WorkerSpec) {
    p in s.q.pending || (exists i :: CarriedBy(s, i, p)) || (exists id :: InFlight(s, id, p))
  }

  /** `p` is `spec` at the same or a later attempt. */
  predicate From(spec: WorkerSpec, p: WorkerSpec) {
    && spec.executionId == p.executionId && spec.taskId == p.taskId && spec.agentId == p.agentId
    && spec.projectId == p.projectId && spec.model == p.model && spec.provider == p.provider
    && spec.permissionMode == p.permissionMode && spec.attempt <= p.attempt
  }

  ghost predicate Descends(accepted: seq<WorkerSpec>, p: WorkerSpec) {
    exists k :: 0 <= k < |accepted| && From(accepted[k], p)
  }

  // ------------------------------------------------------------------ what one step brings

  /** `p` was live before the step, or is the retry of such a one. */
  ghost predicate Derived(s: System, p: WorkerSpec) {
    Live(s, p) || exists q :: Live(s, q) && p == NextAttempt(q)
  }

  lemma WorkerIsLive(s: System, i: nat)
    requires i < |s.workers| && (Holds(s.workers[i]) || Owns(s.workers[i]))
    ensures Live(s, s.workers[i].spec)
  {
    assert CarriedBy(s, i, s.workers[i].spec);
  }

  /** A step of worker i brings no spec but that worker's, its retry, or the oldest pending one. */
  ghost predicate Brings(s: System, t: System, i: nat)
    requires i < |s.workers|
  {
    && |t.workers| == |s.workers| && t.workers == s.workers[i := t.workers[i]]
    && (Holds(t.workers[i]) || Owns(t.workers[i]) ==> Derived(s, t.workers[i].spec))
    && (forall p :: p in t.q.pending ==> Derived(s, p))
    && (forall id :: id in t.q.inFlight ==> Derived(s, t.q.inFlight[id]))
  }

  lemma BringsDerived(s: System, t: System, i: nat, p: WorkerSpec)
    requires i < |s.workers| && Brings(s, t, i) && Live(t, p)
    ensures Derived(s, p)
  {
    if j :| CarriedBy(t, j, p) {
      assert j == i || CarriedBy(s, j, p);
    }
  }

  lemma SameFlight(s: System, t: System)
    requires forall id :: id in t.q.inFlight ==> id in s.q.inFlight && t.q.inFlight[id] == s.q.inFlight[id]
    ensures forall id :: id in t.q.inFlight ==> Derived(s, t.q.inFlight[id])
  {
    forall id | id in t.q.inFlight
      ensures Derived(s, t.q.inFlight[id])
    {
      assert InFlight(s, id, t.q.inFlight[id]);
    }
  }

  lemma TakeBrings(s: System, i: nat)
    requires i < |s.workers| && s.workers[i].Dequeuing? && s.q.pending != []
    ensures Brings(s, DoTake(s, i), i)
  {
    SameFlight(s, DoTake(s, i));
  }

  lemma RecordBrings(s: System, t: System, i: nat)
    requires i < |s.workers| && (Holds(s.workers[i]) || Owns(s.workers[i])) && |t.workers| == |s.workers|
    requires t.workers == s.workers[i := t.workers[i]] && t.q == Record(s.q, s.workers[i].spec)
    requires Holds(t.workers[i]) || Owns(t.workers[i]) ==> t.workers[i].spec == s.workers[i].spec
    ensures Brings(s, t, i)
  {
    WorkerIsLive(s, i);
    forall id | id in t.q.inFlight
      ensures Derived(s, t.q.inFlight[id])
    {
      assert id == s.workers[i].spec.executionId || InFlight(s, id, t.q.inFlight[id]);
    }
  }

  lemma ReleaseBrings(s: System, i: nat)
    requires i < |s.workers| && s.workers[i].Releasing?
    ensures Brings(s, DoRelease(s, i), i)
  {
    WorkerIsLive(s, i);
    SameFlight(s, DoRelease(s, i));
  }

  lemma ResendBrings(s: System, i: nat)
    requires i < |s.workers| && s.workers[i].Resending?
    ensures Brings(s, DoResend(s, i), i)
  {
    WorkerIsLive(s, i);
    SameFlight(s, DoResend(s, i));
  }

  /** Any other step: nothing new in the channel or in flight, and the worker's own spec if any. */
  lemma OtherBrings(s: System, t: System, i: nat)
    requires i < |s.workers| == |t.workers| && t.workers == s.workers[i := t.workers[i]]
    requires t.q.pending == s.q.pending && t.q.inFlight.Keys <= s.q.inFlight.Keys
    requires forall id :: id in t.q.inFlight ==> t.q.inFlight[id] == s.q.inFlight[id]
    requires Holds(t.workers[i]) || Owns(t.workers[i]) ==> Carries(s.workers[i], t.workers[i].spec)
    ensures Brings(s, t, i)
  {
    if Holds(t.workers[i]) || Owns(t.workers[i]) {
      WorkerIsLive(s, i);
    }
    SameFlight(s, t);
  }

  lemma FinishKeepsSpec(s: System, i: nat, o: Outcome)
    requires i < |s.workers| && s.workers[i].Driving?
    ensures var t := DoFinish(s, i, o);
      && |t.workers| == |s.workers| && t.workers == s.workers[i := t.workers[i]] && t.q == s.q
      && (Holds(t.workers[i]) || Owns(t.workers[i]) ==> Carries(s.workers[i], t.workers[i].spec))
  {
  }

  lemma OtherActsBring(cfg: Config, s: System, i: nat, act: Act)
    requires Enabled(cfg, s, Work(i, act))
    requires !act.Take? && !act.Enter? && !act.Release? && !act.Resend? && !act.Restore? && !act.Finish?
    ensures var t := DoWork(cfg, s, i, act);
      && |t.workers| == |s.workers| && t.workers == s.workers[i := t.workers[i]] && t.q.pending == s.q.pending
      && t.q.inFlight.Keys <= s.q.inFlight.Keys
      && (forall id :: id in t.q.inFlight ==> t.q.inFlight[id] == s.q.inFlight[id])
      && (Holds(t.workers[i]) || Owns(t.workers[i]) ==> Carries(s.workers[i], t.workers[i].spec))
  {
    hide LifeOf, Judge, Plan;
  }

  lemma WorkBrings(cfg: Config, s: System, i: nat, act: Act)
    requires Enabled(cfg, s, Work(i, act))
    ensures Brings(s, DoWork(cfg, s, i, act), i)
  {
    hide Brings;
    match act
    case Take => TakeBrings(s, i);
    case Enter => RecordBrings(s, DoEnter(s, i), i);
    case Release => ReleaseBrings(s, i);
    case Resend => ResendBrings(s, i);
    case Restore => RecordBrings(s, DoRestore(s, i), i);
    case Finish(o) =>
      FinishKeepsSpec(s, i, o);
      OtherBrings(s, DoFinish(s, i, o), i);
    case _ =>
      OtherActsBring(cfg, s, i, act);
      OtherBrings(s, DoWork(cfg, s, i, act), i);
  }

  /** What is live after a step was live before, is a retry, or has just been accepted. */
  lemma StepBrings(cfg: Config, s: System, step: Step, p: WorkerSpec)
    requires Enabled(cfg, s, step) && Live(Do(cfg, s, step), p)
    ensures Derived(s, p) || step == FinishEnqueue(p)
  {
    var t := Do(cfg, s, step);
    if step.Work? {
      hide Derived, Live, DoWork;
      WorkBrings(cfg, s, step.worker, step.act);
      BringsDerived(s, t, step.worker, p);
    } else {
      if i :| CarriedBy(t, i, p) {
        assert CarriedBy(s, i, p);
      }
      if id :| InFlight(t, id, p) {
        assert InFlight(s, id, p);
      }
    }
  }

  /** A dead letter is new only if it was live. */
  lemma StepBuries(cfg: Config, s: System, step: Step, p: WorkerSpec)
    requires Enabled(cfg, s, step) && p in Do(cfg, s, step).q.dlq
    ensures p in s.q.dlq || Live(s, p)
  {
    if step.Work? && step.act.Discard? {
      WorkerIsLive(s, step.worker);
    } else {
      OthersBuryNothing(cfg, s, step);
    }
  }

  lemma OthersBuryNothing(cfg: Config, s: System, step: Step)
    requires Enabled(cfg, s, step) && !(step.Work? && step.act.Discard?)
    ensures Do(cfg, s, step).q.dlq == s.q.dlq && Do(cfg, s, step).log.dead == s.log.dead
  {
    hide Judge, Plan, LifeOf, NextAttempt, DoWork;
    if step.Work? {
      WorkBuriesNothing(cfg, s, step.worker, step.act);
    }
  }

  lemma WorkBuriesNothing(cfg: Config, s: System, i: nat, act: Act)
    requires Enabled(cfg, s, Work(i, act)) && !act.Discard?
    ensures DoWork(cfg, s, i, act).q.dlq == s.q.dlq && DoWork(cfg, s, i, act).log.dead == s.log.dead
  {
    hide Judge, Plan, LifeOf, NextAttempt, DoFinish;
    if act.Finish? {
      FinishKeepsQueue(s, i, act.outcome);
    }
  }

  lemma AcceptedGrows(cfg: Config, s: System, step: Step)
    requires Enabled(cfg, s, step)
    ensures Do(cfg, s, step).log.accepted == if step.FinishEnqueue? then s.log.accepted + [step.spec]
      else s.log.accepted
  {
    hide DoWork;
    if step.Work? {
      WorkAcceptsNothing(cfg, s, step.worker, step.act);
    }
  }

  // ------------------------------------------------------------------ every run

  lemma DescendsGrows(accepted: seq<WorkerSpec>, more: seq<WorkerSpec>, p: WorkerSpec)
    requires Descends(accepted, p)
    ensures Descends(accepted + more, p)
  {
    var k :| 0 <= k < |accepted| && From(accepted[k], p);
    assert (accepted + more)[k] == accepted[k];
  }

  ghost predicate Bred(s: System) {
    forall p :: Live(s, p) || p in s.q.dlq ==> Descends(s.log.accepted, p)
  }

  lemma DerivedDescends(s: System, p: WorkerSpec)
    requires Bred(s) && Derived(s, p)
    ensures Descends(s.log.accepted, p)
  {
    if !Live(s, p) {
      var q :| Live(s, q) && p == NextAttempt(q);
      var k :| 0 <= k < |s.log.accepted| && From(s.log.accepted[k], q);
      assert From(s.log.accepted[k], p);
    }
  }

  lemma StepBreeds(cfg: Config, s: System, step: Step)
    requires Bred(s) && Enabled(cfg, s, step)
    ensures Bred(Do(cfg, s, step))
  {
    hide Live, Derived, Do, From, Enabled;
    var t := Do(cfg, s, step);
    AcceptedGrows(cfg, s, step);
    forall p | Live(t, p) || p in t.q.dlq
      ensures Descends(t.log.accepted, p)
    {
      if step == FinishEnqueue(p) {
        AcceptedDescends(s.log.accepted, p);
      } else {
        if Live(t, p) {
          StepBrings(cfg, s, step, p);
          DerivedDescends(s, p);
        } else {
          StepBuries(cfg, s, step, p);
        }
        DescendsGrows(s.log.accepted, if step.FinishEnqueue? then [step.spec] else [], p);
        assert s.log.accepted + [] == s.log.accepted;
      }
    }
  }

  lemma AcceptedDescends(accepted: seq<WorkerSpec>, p: WorkerSpec)
    ensures Descends(accepted + [p], p)
  {
    assert (accepted + [p])[|accepted|] == p;
  }

  lemma NoneLiveAtFirst(n: nat)
    ensures Bred(Init(n))
  {
    forall p
      ensures !Live(Init(n), p)
    {
    }
  }

  lemma {:induction false} BredAlways(cfg: Config, n: nat, steps: seq<Step>)
    ensures Bred(Run(cfg, Init(n), steps))
  {
    if steps == [] {
      NoneLiveAtFirst(n);
    } else {
      hide Bred, Do, Enabled, Init;
      var front, step := steps[..|steps| - 1], steps[|steps| - 1];
      BredAlways(cfg, n, front);
      if Enabled(cfg, Run(cfg, Init(n), front), step) {
        StepBreeds(cfg, Run(cfg, Init(n), front), step);
      }
    }
  }

  /**
   * In every run, clashing ids or not: a spec in the channel, with a worker, in the in-flight map or in
   * the dead letters is one that was accepted, with nothing changed but a higher attempt.
   */
  lemma SpecsAreAccepted(cfg: Config, n: nat, steps: seq<Step>, p: WorkerSpec)
    requires var s := Run(cfg, Init(n), steps); Live(s, p) || p in s.q.dlq
    ensures var s := Run(cfg, Init(n), steps);
      exists k :: 0 <= k < |s.log.accepted| && From(s.log.accepted[k], p)
  {
    BredAlways(cfg, n, steps);
    hide Run, Live, From;
    assert Descends(Run(cfg, Init(n), steps).log.accepted, p);
  }

  // ------------------------------------------------------------------ only while the queue is open

  /** The run has an Enqueue of `spec`, a valid one, that began before Close. */
  ghost predicate Begun(steps: seq<Step>, spec: WorkerSpec) {
    spec.Valid() && exists j :: 0 <= j < |steps| && steps[j] == BeginEnqueue(spec) && MarkClosed !in steps[..j]
  }

  lemma {:induction false} ClosedIsMarked(cfg: Config, n: nat, steps: seq<Step>)
    ensures Run(cfg, Init(n), steps).q.closed <==> MarkClosed in steps
  {
    if steps != [] {
      var front, step := steps[..|steps| - 1], steps[|steps| - 1];
      var before := Run(cfg, Init(n), front);
      hide Do, Enabled;
      ClosedIsMarked(cfg, n, front);
      assert steps == front + [step];
      if Enabled(cfg, before, step) {
        StepCloses(cfg, before, step);
      }
    }
  }

  lemma StepCloses(cfg: Config, s: System, step: Step)
    requires Enabled(cfg, s, step)
    ensures Do(cfg, s, step).q.closed == (s.q.closed || step == MarkClosed)
  {
    hide DoWork;
    if step.Work? {
      WorkClosesNothing(cfg, s, step.worker, step.act);
    }
  }

  lemma WorkClosesNothing(cfg: Config, s: System, i: nat, act: Act)
    requires Enabled(cfg, s, Work(i, act))
    ensures DoWork(cfg, s, i, act).q.closed == s.q.closed
  {
    hide Judge, Plan, LifeOf, NextAttempt, DoFinish;
    if act.Finish? {
      FinishKeepsQueue(s, i, act.outcome);
    }
  }

  lemma StepWaits(cfg: Config, s: System, step: Step, e: WorkerSpec)
    requires Enabled(cfg, s, step) && e in Do(cfg, s, step).enqueuing
    ensures e in s.enqueuing || (step == BeginEnqueue(e) && e.Valid() && !s.q.closed)
  {
    hide Judge, Plan, LifeOf, NextAttempt, DoFinish, Record, DispatchQueue.Receive, Forget, DeadLetter, Send;
    if step.Work? && step.act.Finish? {
      FinishWaitsForNothing(s, step.worker, step.act.outcome);
    }
  }

  lemma FinishWaitsForNothing(s: System, i: nat, o: Outcome)
    requires i < |s.workers| && s.workers[i].Driving?
    ensures DoFinish(s, i, o).enqueuing == s.enqueuing
  {
  }

  lemma BegunStays(steps: seq<Step>, step: Step, spec: WorkerSpec)
    requires Begun(steps, spec)
    ensures Begun(steps + [step], spec)
  {
    var j :| 0 <= j < |steps| && steps[j] == BeginEnqueue(spec) && MarkClosed !in steps[..j];
    assert (steps + [step])[j] == steps[j] && (steps + [step])[..j] == steps[..j];
  }

  /** In every run only a valid spec whose Enqueue began before Close waits or has been accepted, late as it may be. */
  lemma {:induction false} AcceptedBeganBeforeClose(cfg: Config, n: nat, steps: seq<Step>, spec: WorkerSpec)
    requires var s := Run(cfg, Init(n), steps); spec in s.enqueuing || spec in s.log.accepted
    ensures spec.Valid()
    ensures exists j :: 0 <= j < |steps| && steps[j] == BeginEnqueue(spec) && MarkClosed !in steps[..j]
    ensures Begun(steps, spec)
  {
    if steps != [] {
      var front, step := steps[..|steps| - 1], steps[|steps| - 1];
      var before := Run(cfg, Init(n), front);
      assert steps == front + [step];
      hide Do, Init, Begun;
      if Enabled(cfg, before, step) {
        AcceptedGrows(cfg, before, step);
        if spec in Do(cfg, before, step).enqueuing {
          StepWaits(cfg, before, step, spec);
        }
      }
      if spec in before.enqueuing || spec in before.log.accepted {
        AcceptedBeganBeforeClose(cfg, n, front, spec);
        BegunStays(front, step, spec);
      } else {
        ClosedIsMarked(cfg, n, front);
        BeginsLast(front, spec);
      }
      BegunMeans(steps, spec);
    }
  }

  lemma BeginsLast(front: seq<Step>, spec: WorkerSpec)
    requires spec.Valid() && MarkClosed !in front
    ensures Begun(front + [BeginEnqueue(spec)], spec)
  {
    assert (front + [BeginEnqueue(spec)])[|front|] == BeginEnqueue(spec)
        && (front + [BeginEnqueue(spec)])[..|front|] == front;
  }

  lemma BegunMeans(steps: seq<Step>, spec: WorkerSpec)
    requires Begun(steps, spec)
    ensures spec.Valid() && exists j :: 0 <= j < |steps| && steps[j] == BeginEnqueue(spec) && MarkClosed !in steps[..j]
  {
  }

  // ------------------------------------------------------------------ which acceptance

  /** The acceptance that `p` goes back to is the latest one under its id, and is not dead. */
  ghost predicate Traced(log: History, p: WorkerSpec) {
    && p.executionId in log.ticket && Latest(log.accepted, log.ticket[p.executionId])
    && From(log.accepted[log.ticket[p.executionId]], p)
    && forall j :: 0 <= j < |log.dead| ==> log.dead[j].ticket != log.ticket[p.executionId]
  }

  /** Each dead letter goes back to an acceptance of its own. */
  ghost predicate Entombed(log: History, dlq: seq<WorkerSpec>) {
    && |log.dead| == |dlq|
    && (forall k :: 0 <= k < |dlq| ==>
          log.dead[k].ticket < |log.accepted| && From(log.accepted[log.dead[k].ticket], dlq[k]))
    && forall j, k :: 0 <= j < k < |dlq| ==> log.dead[j].ticket != log.dead[k].ticket
  }

  ghost predicate Rooted(s: System) {
    (forall p :: Live(s, p) ==> Traced(s.log, p)) && Entombed(s.log, s.q.dlq)
  }

  lemma DerivedTraces(s: System, p: WorkerSpec)
    requires Rooted(s) && Derived(s, p)
    ensures Traced(s.log, p)
  {
    if !Live(s, p) {
      var q :| Live(s, q) && p == NextAttempt(q);
      assert Traced(s.log, q);
    }
  }

  /** What is live shows in `Here`. */
  lemma LiveIsHere(s: System, p: WorkerSpec)
    requires Owned(s) && Live(s, p)
    ensures Here(s, p.executionId) >= 1
  {
    var id := p.executionId;
    HandsNonNegative(s.workers, id);
    OccursNonNegative(s.q.pending, id);
    if p in s.q.pending {
      var k: nat :| k < |s.q.pending| && s.q.pending[k] == p;
      OccursAt(s.q.pending, k, id);
    } else if exists i :: CarriedBy(s, i, p) {
      var i: nat :| CarriedBy(s, i, p);
      if Holds(s.workers[i]) {
        HandsAtLeast(s.workers, i, id);
      }
    }
  }

  lemma AcceptTraces(s: System, spec: WorkerSpec, p: WorkerSpec)
    requires Entombed(s.log, s.q.dlq)
    requires p == spec || (Traced(s.log, p) && p.executionId != spec.executionId)
    ensures Traced(DoAccept(s, spec).log, p)
  {
    var log := DoAccept(s, spec).log;
    assert log.accepted[|s.log.accepted|] == spec;
    assert forall k :: 0 <= k < |s.log.accepted| ==> log.accepted[k] == s.log.accepted[k];
  }

  lemma AcceptRoots(cfg: Config, s: System, spec: WorkerSpec)
    requires Safe(cfg, s) && Rooted(s) && Enabled(cfg, s, FinishEnqueue(spec))
    ensures Rooted(DoAccept(s, spec))
  {
    var t := DoAccept(s, spec);
    hide Live, Traced, Entombed, From, Here;
    forall p | Live(t, p)
      ensures Traced(t.log, p)
    {
      StepBrings(cfg, s, FinishEnqueue(spec), p);
      if p != spec {
        AcceptRetries(s, spec, p);
        LiveIsHere(s, p);
        assert Here(s, spec.executionId) == 0;
      }
      AcceptTraces(s, spec, p);
    }
    AcceptEntombs(s, spec);
  }

  /** Accepting makes no retry. */
  lemma AcceptRetries(s: System, spec: WorkerSpec, p: WorkerSpec)
    requires Live(DoAccept(s, spec), p) && p != spec
    ensures Live(s, p)
  {
    var t := DoAccept(s, spec);
    if i :| CarriedBy(t, i, p) {
      assert CarriedBy(s, i, p);
    }
    if id :| InFlight(t, id, p) {
      assert InFlight(s, id, p);
    }
  }

  lemma AcceptEntombs(s: System, spec: WorkerSpec)
    requires Entombed(s.log, s.q.dlq)
    ensures Entombed(DoAccept(s, spec).log, DoAccept(s, spec).q.dlq)
  {
  }

  lemma DiscardEntombs(s: System, i: nat)
    requires i < |s.workers| && s.workers[i].Dropping?
    requires Entombed(s.log, s.q.dlq) && Traced(s.log, s.workers[i].spec)
    ensures Entombed(DoDeadLetter(s, i).log, DoDeadLetter(s, i).q.dlq)
  {
  }

  lemma DiscardTraces(s: System, i: nat, p: WorkerSpec)
    requires i < |s.workers| && s.workers[i].Dropping?
    requires Traced(s.log, s.workers[i].spec) && Traced(s.log, p) && p.executionId != s.workers[i].spec.executionId
    ensures Traced(DoDeadLetter(s, i).log, p)
  {
    OwnTickets(s.log, s.workers[i].spec, p);
  }

  lemma DiscardForgets(s: System, i: nat)
    requires i < |s.workers| && s.workers[i].Dropping?
    ensures s.workers[i].spec.executionId !in DoDeadLetter(s, i).log.inUse
  {
  }

  lemma DiscardRoots(cfg: Config, s: System, i: nat)
    requires Safe(cfg, s) && Rooted(s) && Enabled(cfg, s, Work(i, Discard))
    ensures Rooted(DoDeadLetter(s, i))
  {
    hide Safe, Live, Derived, Traced, Entombed, Here, DoDeadLetter;
    var t, spec := DoDeadLetter(s, i), s.workers[i].spec;
    WorkerIsLive(s, i);
    DeadLetterKeeps(cfg, s, i);
    DiscardForgets(s, i);
    BuriedIsGone(cfg, t, spec.executionId);
    DiscardEntombs(s, i);
    forall p | Live(t, p)
      ensures Traced(t.log, p)
    {
      StepBrings(cfg, s, Work(i, Discard), p);
      DerivedTraces(s, p);
      LiveIsHereSafely(cfg, t, p);
      DiscardTraces(s, i, p);
    }
  }

  lemma LiveIsHereSafely(cfg: Config, s: System, p: WorkerSpec)
    requires Safe(cfg, s) && Live(s, p)
    ensures Here(s, p.executionId) >= 1
  {
    LiveIsHere(s, p);
  }

  lemma BuriedIsGone(cfg: Config, t: System, id: Uuid)
    requires Safe(cfg, t) && id !in t.log.inUse
    ensures Here(t, id) <= 0
  {
  }

  /** Specs of different ids have different tickets. */
  lemma OwnTickets(log: History, p: WorkerSpec, q: WorkerSpec)
    requires Traced(log, p) && Traced(log, q) && p.executionId != q.executionId
    ensures log.ticket[p.executionId] != log.ticket[q.executionId]
  {
  }

  lemma OtherRoots(cfg: Config, s: System, step: Step)
    requires Rooted(s) && Enabled(cfg, s, step) && !step.FinishEnqueue? && !(step.Work? && step.act.Discard?)
    ensures Rooted(Do(cfg, s, step))
  {
    hide Live, Derived, Traced, Entombed, Do, Enabled;
    var t := Do(cfg, s, step);
    OthersBuryNothing(cfg, s, step);
    OthersAcceptNothing(cfg, s, step);
    forall p | Live(t, p)
      ensures Traced(t.log, p)
    {
      StepBrings(cfg, s, step, p);
      DerivedTraces(s, p);
      SameTraces(s.log, t.log, p);
    }
    SameEntombs(s.log, t.log, s.q.dlq);
  }

  lemma SameTraces(log: History, log': History, p: WorkerSpec)
    requires Traced(log, p) && log'.accepted == log.accepted && log'.ticket == log.ticket && log'.dead == log.dead
    ensures Traced(log', p)
  {
  }

  lemma SameEntombs(log: History, log': History, dlq: seq<WorkerSpec>)
    requires Entombed(log, dlq) && log'.accepted == log.accepted && log'.dead == log.dead
    ensures Entombed(log', dlq)
  {
  }

  lemma OthersAcceptNothing(cfg: Config, s: System, step: Step)
    requires Enabled(cfg, s, step) && !step.FinishEnqueue?
    ensures Do(cfg, s, step).log.accepted == s.log.accepted && Do(cfg, s, step).log.ticket == s.log.ticket
  {
    hide DoWork;
    if step.Work? {
      WorkAcceptsNothing(cfg, s, step.worker, step.act);
    }
  }

  lemma StepRoots(cfg: Config, s: System, step: Step)
    requires Safe(cfg, s) && Rooted(s) && Enabled(cfg, s, step)
    ensures Rooted(Do(cfg, s, step))
  {
    hide Safe, Rooted, DoAccept, DoDeadLetter;
    if step.FinishEnqueue? {
      AcceptRoots(cfg, s, step.spec);
    } else if step.Work? && step.act.Discard? {
      DiscardRoots(cfg, s, step.worker);
    } else {
      OtherRoots(cfg, s, step);
    }
  }

  lemma RootedAtFirst(n: nat)
    ensures Rooted(Init(n))
  {
    forall p
      ensures !Live(Init(n), p)
    {
    }
  }

  lemma {:induction false} RootedAlways(cfg: Config, n: nat, steps: seq<Step>)
    requires !Run(cfg, Init(n), steps).log.clash
    ensures Rooted(Run(cfg, Init(n), steps))
  {
    if steps == [] {
      RootedAtFirst(n);
    } else {
      hide Safe, Rooted, Do, Enabled, Init;
      var front, step := steps[..|steps| - 1], steps[|steps| - 1];
      var before := Run(cfg, Init(n), front);
      if before.log.clash && Enabled(cfg, before, step) {
        ClashStays(cfg, before, step);
      }
      RootedAlways(cfg, n, front);
      if Enabled(cfg, before, step) {
        SoundAlways(cfg, n, front);
        StepRoots(cfg, before, step);
      }
    }
  }

  /** In every run without a clash, what is live goes back to the latest acceptance of its id. */
  lemma LiveSpecsAreTheLatest(cfg: Config, n: nat, steps: seq<Step>, p: WorkerSpec)
    requires !Run(cfg, Init(n), steps).log.clash && Live(Run(cfg, Init(n), steps), p)
    ensures var s := Run(cfg, Init(n), steps);
      exists k :: Latest(s.log.accepted, k) && From(s.log.accepted[k], p)
  {
    RootedAlways(cfg, n, steps);
    var log := Run(cfg, Init(n), steps).log;
    hide Run, Live, Entombed;
    assert Traced(log, p);
    assert Latest(log.accepted, log.ticket[p.executionId]) && From(log.accepted[log.ticket[p.executionId]], p);
  }

  /** And each dead letter goes back to an acceptance that no other dead letter goes back to. */
  lemma DeadLettersAreTheirOwn(cfg: Config, n: nat, steps: seq<Step>)
    requires !Run(cfg, Init(n), steps).log.clash
    ensures var s := Run(cfg, Init(n), steps);
      && |s.log.dead| == |s.q.dlq|
      && (forall k :: 0 <= k < |s.q.dlq| ==>
            s.log.dead[k].ticket < |s.log.accepted| && From(s.log.accepted[s.log.dead[k].ticket], s.q.dlq[k]))
      && forall j, k :: 0 <= j < k < |s.q.dlq| ==> s.log.dead[j].ticket != s.log.dead[k].ticket
  {
    RootedAlways(cfg, n, steps);
    hide Run, Live, Traced;
  }

  // ------------------------------------------------------------------ in which order

  /** The specs that a step sends into the channel, and those it takes out. */
  function SentBy(s: System, step: Step): seq<WorkerSpec> {
    match step
    case FinishEnqueue(spec) => [spec]
    case Work(i, Resend) => if i < |s.workers| && s.workers[i].Resending? then [s.workers[i].spec] else []
    case _ => []
  }

  function TakenBy(s: System, t: System, step: Step): seq<WorkerSpec> {
    match step
    case Work(i, Take) => if i < |t.workers| && t.workers[i].Received? then [t.workers[i].spec] else []
    case _ => []
  }

  function SentIn(cfg: Config, n: nat, steps: seq<Step>): seq<WorkerSpec> {
    if steps == [] then []
    else
      var front, step := steps[..|steps| - 1], steps[|steps| - 1];
      var before := Run(cfg, Init(n), front);
      SentIn(cfg, n, front) + (if Enabled(cfg, before, step) then SentBy(before, step) else [])
  }

  function TakenIn(cfg: Config, n: nat, steps: seq<Step>): seq<WorkerSpec> {
    if steps == [] then []
    else
      var front, step := steps[..|steps| - 1], steps[|steps| - 1];
      var before := Run(cfg, Init(n), front);
      TakenIn(cfg, n, front)
      + (if Enabled(cfg, before, step) then TakenBy(before, Do(cfg, before, step), step) else [])
  }

  lemma WorkQueues(cfg: Config, s: System, i: nat, act: Act)
    requires Enabled(cfg, s, Work(i, act)) && !act.Take? && !act.Resend?
    ensures DoWork(cfg, s, i, act).q.pending == s.q.pending
  {
    hide Judge, Plan, LifeOf, NextAttempt, DoFinish;
    if act.Finish? {
      FinishKeepsQueue(s, i, act.outcome);
    }
  }

  lemma StepQueues(cfg: Config, s: System, step: Step)
    requires Enabled(cfg, s, step)
    ensures s.q.pending + SentBy(s, step) == TakenBy(s, Do(cfg, s, step), step) + Do(cfg, s, step).q.pending
  {
    if step.Work? && !step.act.Take? && !step.act.Resend? {
      WorkQueues(cfg, s, step.worker, step.act);
      hide DoWork;
    }
  }

  lemma JoinQueues<T>(sent: seq<T>, taken: seq<T>, before: seq<T>, more: seq<T>, out: seq<T>, after: seq<T>)
    requires sent == taken + before && before + more == out + after
    ensures sent + more == taken + out + after
  {
    assert sent + more == taken + (before + more);
  }

  /** In every run the specs come out of the channel in the order in which they and the retries were sent. */
  lemma {:induction false} ChannelIsFirstInFirstOut(cfg: Config, n: nat, steps: seq<Step>)
    ensures SentIn(cfg, n, steps) == TakenIn(cfg, n, steps) + Run(cfg, Init(n), steps).q.pending
  {
    if steps != [] {
      hide Do, Enabled, SentBy, TakenBy;
      var front, step := steps[..|steps| - 1], steps[|steps| - 1];
      var s := Run(cfg, Init(n), front);
      ChannelIsFirstInFirstOut(cfg, n, front);
      if Enabled(cfg, s, step) {
        var t := Do(cfg, s, step);
        StepQueues(cfg, s, step);
        JoinQueues(SentIn(cfg, n, front), TakenIn(cfg, n, front), s.q.pending, SentBy(s, step), TakenBy(s, t, step),
            t.q.pending);
      }
    }
  }
}
