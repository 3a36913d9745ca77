/** The dispatcher's promises over every run, and the runs that show where they end. */
module DispatcherRuns {
  import opened Specs
  import opened DispatchQueue
  import opened Dispatcher
  import opened DispatcherSafety
  import opened DispatcherCounts
  import opened DispatcherRetries
  import opened DispatcherDrain

  ghost predicate Sound(cfg: Config, s: System) {
    Safe(cfg, s) && Balanced(s) && Sized(s) && AttemptsTallied(cfg, s) && Draining(s)
  }

  lemma InitSound(cfg: Config, n: nat)
    ensures Sound(cfg, Init(n))
  {
    InitSafe(cfg, n);
    forall tag
      ensures Count(tag, Init(n).workers) == 0
    {
      CountAtLeast(tag, Init(n).workers);
    }
  }

  lemma StepSound(cfg: Config, s: System, step: Step)
    requires Sound(cfg, s) && Enabled(cfg, s, step) && !Do(cfg, s, step).log.clash
    ensures Sound(cfg, Do(cfg, s, step))
  {
    assert Safe(cfg, s) && Owned(s);
    hide Safe, Owned, Balanced, Sized, AttemptsTallied, Draining, Do;
    StepKeeps(cfg, s, step);
    StepBalances(cfg, s, step);
    StepRetried(cfg, s, step);
    StepDrains(cfg, s, step);
  }

  lemma RunStep(cfg: Config, s: System, steps: seq<Step>, step: Step)
    ensures var before := Run(cfg, s, steps);
      Run(cfg, s, steps + [step]) == if Enabled(cfg, before, step) then Do(cfg, before, step) else before
  {
    assert (steps + [step])[..|steps|] == steps;
  }

  /** The invariant of every run in which no Enqueue begins with an ExecutionID that is waiting or not yet settled. */
  lemma {:induction false} SoundAlways(cfg: Config, n: nat, steps: seq<Step>)
    requires !Run(cfg, Init(n), steps).log.clash
    ensures Sound(cfg, Run(cfg, Init(n), steps))
  {
    if steps == [] {
      InitSound(cfg, n);
    } else {
      var before, step := Run(cfg, Init(n), steps[..|steps| - 1]), steps[|steps| - 1];
      if before.log.clash && Enabled(cfg, before, step) {
        ClashStays(cfg, before, step);
      }
      hide Sound, Do, Enabled, Init;
      SoundAlways(cfg, n, steps[..|steps| - 1]);
      if Enabled(cfg, before, step) {
        StepSound(cfg, before, step);
      }
    }
  }

  // ------------------------------------------------------------------ what holds in every run

  /** The condition of these theorems fails first when an Enqueue begins with an id that is waiting or unsettled. */
  lemma ClashesExactly(cfg: Config, n: nat, steps: seq<Step>, step: Step)
    requires !Run(cfg, Init(n), steps).log.clash
    ensures var s := Run(cfg, Init(n), steps);
      Run(cfg, Init(n), steps + [step]).log.clash
      <==> step.BeginEnqueue? && Enabled(cfg, s, step)
           && (Here(s, step.spec.executionId) == 1 || Waiting(s, step.spec.executionId))
  {
    var s := Run(cfg, Init(n), steps);
    SoundAlways(cfg, n, steps);
    RunStep(cfg, Init(n), steps, step);
    if Enabled(cfg, s, step) {
      StepClashes(cfg, s, step);
    }
    hide Run, Do;
  }

  lemma StepClashes(cfg: Config, s: System, step: Step)
    requires Safe(cfg, s) && !s.log.clash && Enabled(cfg, s, step)
    ensures Do(cfg, s, step).log.clash
            <==> step.BeginEnqueue? && (Here(s, step.spec.executionId) == 1 || Waiting(s, step.spec.executionId))
  {
    hide Safe, Here, Waiting, Do;
    if step.BeginEnqueue? {
      InUseMeans(cfg, s, step.spec.executionId);
      BeginClashes(cfg, s, step.spec);
    } else {
      OnlyBeginClashes(cfg, s, step);
    }
  }

  lemma InUseMeans(cfg: Config, s: System, id: Uuid)
    requires Safe(cfg, s)
    ensures id in s.log.inUse <==> Here(s, id) == 1 || Waiting(s, id)
  {
    assert Here(s, id) <= 1;
  }

  lemma BeginClashes(cfg: Config, s: System, spec: WorkerSpec)
    requires !s.log.clash && Enabled(cfg, s, BeginEnqueue(spec))
    ensures Do(cfg, s, BeginEnqueue(spec)).log.clash <==> spec.executionId in s.log.inUse
  {
  }

  lemma OnlyBeginClashes(cfg: Config, s: System, step: Step)
    requires !s.log.clash && Enabled(cfg, s, step) && !step.BeginEnqueue?
    ensures !Do(cfg, s, step).log.clash
  {
  }

  /**
   * Every accepted spec is in exactly one place, as often as it was accepted, and at most one of them is
   * unsettled; the channel and the dead-letter count are in bounds.
   */
  lemma EverySpecInOnePlace(cfg: Config, n: nat, steps: seq<Step>, id: Uuid)
    requires !Run(cfg, Init(n), steps).log.clash
    ensures var s := Run(cfg, Init(n), steps);
      && Here(s, id) + s.log.acked[id] + Occurs(s.q.dlq, id) == Occurs(s.log.accepted, id) && 0 <= Here(s, id) <= 1
      && |s.q.pending| <= cfg.bufferSize && s.q.dropped == |s.q.dlq|
      && s.log.unknown == 0
  {
    SoundAlways(cfg, n, steps);
    var s := Run(cfg, Init(n), steps);
    HereNonNegative(s, id);
    assert Places(s, id) == Occurs(s.log.accepted, id);
  }

  /**
   * A spec accepted with attempt a is spawned at most max(1, maxAttempts - a + 1) times before its id is
   * accepted again.
   */
  lemma SpawnsAreBounded(cfg: Config, n: nat, steps: seq<Step>, k: nat)
    requires !Run(cfg, Init(n), steps).log.clash && Latest(Run(cfg, Init(n), steps).log.accepted, k)
    ensures var s := Run(cfg, Init(n), steps);
      var spec := s.log.accepted[k];
      spec.executionId in s.log.spawns && s.log.spawns[spec.executionId] <= Max(1, cfg.maxAttempts - spec.attempt + 1)
  {
    hide Run, Safe, AttemptsTallied, Balanced, Sized, Draining, Init, Max, Latest;
    SoundAlways(cfg, n, steps);
    TallyBounds(cfg, Run(cfg, Init(n), steps), k);
  }

  lemma TallyBounds(cfg: Config, s: System, k: nat)
    requires Safe(cfg, s) && AttemptsTallied(cfg, s) && Latest(s.log.accepted, k)
    ensures var spec := s.log.accepted[k];
      spec.executionId in s.log.spawns && s.log.spawns[spec.executionId] <= Max(1, cfg.maxAttempts - spec.attempt + 1)
  {
    hide Known, Standing, Buried;
  }

  /** In a queue not closed, a spec is dead-lettered only after exactly that many Spawn calls. */
  lemma DeadLettersAreExhausted(cfg: Config, n: nat, steps: seq<Step>, k: nat)
    requires !Run(cfg, Init(n), steps).log.clash
    requires var s := Run(cfg, Init(n), steps); k < |s.q.dlq| && !s.q.closed
    ensures var s := Run(cfg, Init(n), steps);
      k < |s.log.dead| && s.log.dead[k].spawns == SpawnBound(cfg, s.log.dead[k].first)
  {
    SoundAlways(cfg, n, steps);
    var s := Run(cfg, Init(n), steps);
    assert Buried(cfg, s.log.dead[k], s.q.closed, s.q.dlq[k]);
  }

  /** The counters against where the workers stand, and against the queue. */
  lemma CountersBalance(cfg: Config, n: nat, steps: seq<Step>)
    requires !Run(cfg, Init(n), steps).log.clash
    ensures var s := Run(cfg, Init(n), steps);
      && s.stats.spawned == s.stats.completed + s.stats.failed + s.stats.cancelled + Count(MidRun, s.workers)
      && s.stats.failed + s.stats.cancelled
         == s.stats.retries + s.stats.dropped + s.log.failedNacks + Count(Settling, s.workers)
      && s.stats.completed == |s.log.acked| + Count(Acknowledging, s.workers)
      && |s.q.dlq| == s.stats.dropped + Count(TallyDrop, s.workers)
  {
    SoundAlways(cfg, n, steps);
  }

  /** A retry's send finds room as long as at most bufferSize specs are neither acked nor dead-lettered. */
  lemma RetryFindsRoom(cfg: Config, n: nat, steps: seq<Step>, i: nat)
    requires !Run(cfg, Init(n), steps).log.clash
    requires var s := Run(cfg, Init(n), steps);
      && i < |s.workers| && s.workers[i].Resending?
      && |s.log.accepted| - |s.log.acked| - |s.q.dlq| <= cfg.bufferSize
    ensures Enabled(cfg, Run(cfg, Init(n), steps), Work(i, Resend))
  {
    SoundAlways(cfg, n, steps);
    CountPositive(InHand, Run(cfg, Init(n), steps).workers, i);
  }

  /** The settling steps a run takes: acks, drops, retries taken out of flight, Nacks abandoned on ctx. */
  function Settlements(cfg: Config, s: System, steps: seq<Step>): nat {
    if steps == [] then 0
    else
      var before, step := Run(cfg, s, steps[..|steps| - 1]), steps[|steps| - 1];
      Settlements(cfg, s, steps[..|steps| - 1])
      + (if Enabled(cfg, before, step) && step.Work? && Settles(step.act) then 1 else 0)
  }

  function StepCost(cfg: Config, s: System, step: Step): int
    requires Enabled(cfg, s, step)
  {
    if step.Work? then Cost(cfg, s.workers[step.worker], step.act) else 0
  }

  /** The attempts a run uses up: one at each retry, and all that a spec has left when it is settled for good. */
  function Spent(cfg: Config, s: System, steps: seq<Step>): int {
    if steps == [] then 0
    else
      var before, step := Run(cfg, s, steps[..|steps| - 1]), steps[|steps| - 1];
      Spent(cfg, s, steps[..|steps| - 1]) + (if Enabled(cfg, before, step) then StepCost(cfg, before, step) else 0)
  }

  lemma FinishKeepsQueue(s: System, i: nat, o: Outcome)
    requires i < |s.workers| && s.workers[i].Driving?
    ensures DoFinish(s, i, o).q == s.q && DoFinish(s, i, o).log == s.log
  {
  }

  lemma WorkAcceptsNothing(cfg: Config, s: System, i: nat, act: Act)
    requires Enabled(cfg, s, Work(i, act))
    ensures DoWork(cfg, s, i, act).log.accepted == s.log.accepted && DoWork(cfg, s, i, act).log.ticket == s.log.ticket
  {
    hide Plan, LifeOf, NextAttempt, Record, DispatchQueue.Receive, Forget, DeadLetter, Send, DoFinish;
    if act.Finish? {
      FinishKeepsQueue(s, i, act.outcome);
    }
  }

  lemma AcceptSpends(cfg: Config, s: System, spec: WorkerSpec)
    ensures var t := DoAccept(s, spec);
      Left(cfg, t) - Pile(cfg, t.log.accepted) == Left(cfg, s) - Pile(cfg, s.log.accepted)
  {
    PileAppend(cfg, s.q.pending, spec);
    PileAppend(cfg, s.log.accepted, spec);
  }

  lemma StepSpends(cfg: Config, s: System, step: Step)
    requires Owned(s) && AttemptsTallied(cfg, s) && Enabled(cfg, s, step)
    ensures var t := Do(cfg, s, step);
      StepCost(cfg, s, step) + Left(cfg, t) - Pile(cfg, t.log.accepted) == Left(cfg, s) - Pile(cfg, s.log.accepted)
    ensures StepCost(cfg, s, step) >= if step.Work? && Settles(step.act) then 1 else 0
  {
    hide Owned, AttemptsTallied, DoWork;
    match step
    case Work(i, act) =>
      WorkAcceptsNothing(cfg, s, i, act);
      CostOfSettling(cfg, s, i, act);
      WorkFalls(cfg, s, i, act);
    case FinishEnqueue(spec) => AcceptSpends(cfg, s, spec);
    case _ =>
  }

  lemma {:induction false} IdleLoad(cfg: Config, workers: seq<Pc>)
    requires forall pc :: pc in workers ==> pc.Looping?
    ensures Load(cfg, workers) == 0
  {
    if workers != [] {
      assert workers[0] in workers;
      IdleLoad(cfg, workers[1..]);
    }
  }

  /**
   * The attempts granted on acceptance are conserved: they are spent or still held by a spec that is
   * pending or in a worker's charge. A retry spends one; an Ack, a drop and a Nack abandoned on ctx
   * spend all the spec had left. As each of these spends at least one, there are no more of them.
   */
  lemma {:induction false} WorkIsFinite(cfg: Config, n: nat, steps: seq<Step>)
    requires !Run(cfg, Init(n), steps).log.clash
    ensures var s := Run(cfg, Init(n), steps);
      && Spent(cfg, Init(n), steps) + Left(cfg, s) == Pile(cfg, s.log.accepted)
      && Settlements(cfg, Init(n), steps) <= Spent(cfg, Init(n), steps) && 0 <= Left(cfg, s)
  {
    if steps == [] {
      IdleLoad(cfg, Init(n).workers);
    } else {
      var before, step := Run(cfg, Init(n), steps[..|steps| - 1]), steps[|steps| - 1];
      if before.log.clash && Enabled(cfg, before, step) {
        ClashStays(cfg, before, step);
      }
      hide Do, Enabled, StepCost, Init, Left, Safe, Owned, Balanced, Sized, AttemptsTallied, Draining;
      WorkIsFinite(cfg, n, steps[..|steps| - 1]);
      if Enabled(cfg, before, step) {
        SoundAlways(cfg, n, steps[..|steps| - 1]);
        SafeIsOwned(cfg, before);
        StepSpends(cfg, before, step);
      }
    }
    LeftNonNegative(cfg, Run(cfg, Init(n), steps));
  }

  lemma SafeIsOwned(cfg: Config, s: System)
    requires Safe(cfg, s)
    ensures Owned(s)
  {
  }

  lemma LeftNonNegative(cfg: Config, s: System)
    ensures Left(cfg, s) >= 0
  {
    PileNonNegative(cfg, s.q.pending);
    LoadNonNegative(cfg, s.workers);
  }

  lemma {:induction false} OccursMeans(specs: seq<WorkerSpec>, id: Uuid)
    ensures Occurs(specs, id) > 0 ==> exists k :: 0 <= k < |specs| && specs[k].executionId == id
  {
    if specs != [] {
      OccursMeans(specs[1..], id);
      if Occurs(specs[1..], id) > 0 {
        var k :| 0 <= k < |specs[1..]| && specs[1..][k].executionId == id;
        assert specs[k + 1].executionId == id;
      } else {
        assert Occurs(specs, id) > 0 ==> specs[0].executionId == id;
      }
    }
  }

  /**
   * Close followed by every worker leaving, with ctx never cancelled, settles everything accepted under
   * an id if and only if none of it was accepted after the last worker left; such a one was sent after
   * Close and stays in the channel.
   */
  lemma CloseDrains(cfg: Config, n: nat, steps: seq<Step>, id: Uuid)
    requires !Run(cfg, Init(n), steps).log.clash
    requires var s := Run(cfg, Init(n), steps); !s.ctxDone && AllExited(s)
    ensures var s := Run(cfg, Init(n), steps);
      && (s.log.acked[id] + Occurs(s.q.dlq, id) == Occurs(s.log.accepted, id) <==> id !in s.log.stranded)
      && (id in s.log.stranded ==> id in s.log.late && Occurs(s.q.pending, id) == 1)
  {
    var s := Run(cfg, Init(n), steps);
    SoundAlways(cfg, n, steps);
    assert Places(s, id) == Occurs(s.log.accepted, id) && Here(s, id) <= 1;
    IdleHands(s.workers, id);
    OccursNonNegative(s.q.pending, id);
    OccursMeans(s.q.pending, id);
    forall i: nat
      ensures !OwnedBy(s, i, id)
    {
      ExitedOwnsNothing(s, i, id);
    }
    assert id !in s.q.inFlight;
    if k :| PendingAt(s, k, id) {
      OccursAt(s.q.pending, k, id);
    }
  }

  lemma {:induction false} OccursAt(specs: seq<WorkerSpec>, k: int, id: Uuid)
    requires 0 <= k < |specs| && specs[k].executionId == id
    ensures Occurs(specs, id) > 0
  {
    if k == 0 {
      OccursNonNegative(specs[1..], id);
    } else {
      OccursAt(specs[1..], k - 1, id);
    }
  }

  lemma ExitedOwnsNothing(s: System, i: nat, id: Uuid)
    requires AllExited(s)
    ensures !OwnedBy(s, i, id)
  {
  }

  // ------------------------------------------------------------------ where the promises end

  lemma Begun(cfg: Config, n: nat) returns (steps: seq<Step>, s: System)
    ensures steps == [] && s == Init(n) == Run(cfg, Init(n), steps)
  {
    steps, s := [], Init(n);
  }

  /** `t` is what a run that has reached `s` comes to by one more enabled step. */
  lemma Extend(cfg: Config, start: System, steps: seq<Step>, s: System, step: Step)
    returns (longer: seq<Step>, t: System)
    requires s == Run(cfg, start, steps) && Enabled(cfg, s, step)
    ensures longer == steps + [step] && t == Do(cfg, s, step) && t == Run(cfg, start, longer)
  {
    longer, t := steps + [step], Do(cfg, s, step);
    RunStep(cfg, start, steps, step);
  }

  /** When all workers have left, what is pending stays pending. */
  lemma {:induction false} NobodyTakes(cfg: Config, s: System, more: seq<Step>, spec: WorkerSpec)
    requires AllExited(s) && spec in s.q.pending
    ensures AllExited(Run(cfg, s, more)) && spec in Run(cfg, s, more).q.pending
  {
    if more != [] {
      var before, step := Run(cfg, s, more[..|more| - 1]), more[|more| - 1];
      NobodyTakes(cfg, s, more[..|more| - 1], spec);
      if Enabled(cfg, before, step) {
        StepTakesNothing(cfg, before, step, spec);
      }
      hide Enabled, Do, AllExited;
    }
  }

  lemma StepTakesNothing(cfg: Config, s: System, step: Step, spec: WorkerSpec)
    requires AllExited(s) && spec in s.q.pending && Enabled(cfg, s, step)
    ensures AllExited(Do(cfg, s, step)) && spec in Do(cfg, s, step).q.pending
  {
  }

  /**
   * An Enqueue that read closed == false may still send after Close, when every worker has gone:
   * the spec is accepted without error and nothing will ever take it.
   */
  lemma LateEnqueueIsStranded(cfg: Config, spec: WorkerSpec) returns (steps: seq<Step>)
    requires cfg.bufferSize >= 1 && spec.Valid()
    ensures var s := Run(cfg, Init(1), steps);
      && !s.log.clash && !s.ctxDone && AllExited(s)
      && s.log.accepted == [spec] && s.q.pending == [spec] && s.log.stranded == {spec.executionId}
      && forall more :: spec in Run(cfg, s, more).q.pending
  {
    hide Run;
    var s;
    steps, s := Begun(cfg, 1);
    assert s.workers == [Looping];
    steps, s := Extend(cfg, Init(1), steps, s, BeginEnqueue(spec));
    steps, s := Extend(cfg, Init(1), steps, s, MarkClosed);
    steps, s := Extend(cfg, Init(1), steps, s, SignalClosed);
    steps, s := Extend(cfg, Init(1), steps, s, Work(0, Poll));
    steps, s := Extend(cfg, Init(1), steps, s, Work(0, QuitClosed));
    steps, s := Extend(cfg, Init(1), steps, s, FinishEnqueue(spec));
    forall more
      ensures spec in Run(cfg, s, more).q.pending
    {
      NobodyTakes(cfg, s, more, spec);
    }
  }

  lemma Submit(cfg: Config, start: System, steps: seq<Step>, s: System, spec: WorkerSpec)
    returns (longer: seq<Step>, t: System)
    requires s == Run(cfg, start, steps) && spec.Valid() && !s.q.closed && |s.q.pending| < cfg.bufferSize
    ensures t == DoAccept(DoBegin(s, spec), spec) && t == Run(cfg, start, longer)
  {
    hide Run;
    longer, t := Extend(cfg, start, steps, s, BeginEnqueue(spec));
    longer, t := Extend(cfg, start, longer, t, FinishEnqueue(spec));
  }

  /** An idle worker takes the oldest pending spec as far as the running worker process. */
  lemma Launch(cfg: Config, start: System, steps: seq<Step>, s: System, i: nat) returns (longer: seq<Step>, t: System)
    requires s == Run(cfg, start, steps) && i < |s.workers| && s.workers[i].Looping? && s.q.pending != []
    ensures var spec := s.q.pending[0];
      && t.workers == s.workers[i := Driving(spec)]
      && t.q == Record(DispatchQueue.Receive(s.q), spec)
      && t.enqueuing == s.enqueuing && t.ctxDone == s.ctxDone
      && t.stats == s.stats.(spawned := s.stats.spawned + 1)
      && t.log == s.log.(spawns := t.log.spawns)
    ensures t == Run(cfg, start, longer)
  {
    hide Run;
    longer, t := Extend(cfg, start, steps, s, Work(i, Poll));
    longer, t := Extend(cfg, start, longer, t, Work(i, Take));
    longer, t := Extend(cfg, start, longer, t, Work(i, Enter));
    longer, t := Extend(cfg, start, longer, t, Work(i, CountSpawn));
  }

  /** The worker's run failed and Nack resolves what to do. */
  lemma Fail(cfg: Config, start: System, steps: seq<Step>, s: System, i: nat) returns (longer: seq<Step>, t: System)
    requires s == Run(cfg, start, steps) && i < |s.workers| && s.workers[i].Driving?
    ensures var u := DoFinish(s, i, SpawnError);
      u.workers[i] == Nacking(s.workers[i].spec) && t == DoDecide(cfg, u, i)
    ensures t == Run(cfg, start, longer)
  {
    hide Run;
    longer, t := Extend(cfg, start, steps, s, Work(i, Finish(SpawnError)));
    longer, t := Extend(cfg, start, longer, t, Work(i, Decide));
  }

  lemma OneRunning(cfg: Config, x: WorkerSpec) returns (steps: seq<Step>, s: System)
    requires cfg.bufferSize >= 1 && x.Valid()
    ensures s == Run(cfg, Init(1), steps) && s.workers == [Driving(x)]
    ensures s.q == EMPTY.(inFlight := map[x.executionId := x]) && !s.ctxDone
    ensures s.log.accepted == [x] && s.log.acked == multiset{} && s.log.inUse == {x.executionId} && !s.log.clash
  {
    hide Run;
    steps, s := Begun(cfg, 1);
    assert s.workers == [Looping];
    steps, s := Submit(cfg, Init(1), steps, s, x);
    steps, s := Launch(cfg, Init(1), steps, s, 0);
  }

  lemma RetryInHand(cfg: Config, x: WorkerSpec) returns (steps: seq<Step>, s: System)
    requires cfg.bufferSize >= 1 && x.Valid() && x.attempt < cfg.maxAttempts
    ensures s == Run(cfg, Init(1), steps) && s.workers == [Resending(NextAttempt(x))]
    ensures s.q.pending == s.q.dlq == [] && !s.q.closed && !s.ctxDone
    ensures s.log.accepted == [x] && s.log.acked == multiset{} && s.log.inUse == {x.executionId} && !s.log.clash
  {
    hide Run;
    steps, s := OneRunning(cfg, x);
    steps, s := Fail(cfg, Init(1), steps, s, 0);
    assert s.workers == [Releasing(x)];
    steps, s := Extend(cfg, Init(1), steps, s, Work(0, Release));
  }

  /** There is room for `ys`, and no id of theirs is in use. */
  ghost predicate Fits(cfg: Config, s: System, ys: seq<WorkerSpec>) {
    && !s.q.closed && |s.q.pending| + |ys| <= cfg.bufferSize
    && (forall j :: 0 <= j < |ys| ==> ys[j].Valid() && ys[j].executionId !in s.log.inUse)
    && (forall j, k :: 0 <= j < k < |ys| ==> ys[j].executionId != ys[k].executionId)
  }

  /** `t` is `s` with `ys` accepted on top. */
  predicate Filled(s: System, t: System, ys: seq<WorkerSpec>) {
    && t.workers == s.workers && t.ctxDone == s.ctxDone && t.log.clash == s.log.clash && t.log.acked == s.log.acked
    && t.q == s.q.(pending := s.q.pending + ys) && t.log.accepted == s.log.accepted + ys
  }

  lemma SubmitFirst(cfg: Config, start: System, steps: seq<Step>, s: System, ys: seq<WorkerSpec>)
    returns (longer: seq<Step>, t: System)
    requires s == Run(cfg, start, steps) && ys != [] && Fits(cfg, s, ys)
    ensures t == Run(cfg, start, longer) && Filled(s, t, ys[..1]) && Fits(cfg, t, ys[1..])
  {
    hide Run;
    longer, t := Submit(cfg, start, steps, s, ys[0]);
    assert ys[..1] == [ys[0]];
  }

  lemma FilledTwice(s: System, t: System, u: System, ys: seq<WorkerSpec>)
    requires ys != [] && Filled(s, t, ys[..1]) && Filled(t, u, ys[1..])
    ensures Filled(s, u, ys)
  {
    assert ys == ys[..1] + ys[1..];
  }

  /** `ys` are enqueued one after the other. */
  lemma {:induction false} Fill(cfg: Config, start: System, steps: seq<Step>, s: System, ys: seq<WorkerSpec>)
    returns (longer: seq<Step>, t: System)
    requires s == Run(cfg, start, steps) && Fits(cfg, s, ys)
    ensures t == Run(cfg, start, longer) && Filled(s, t, ys)
    decreases |ys|
  {
    if ys == [] {
      longer, t := steps, s;
    } else {
      hide Run, Fits, Filled;
      var u;
      longer, u := SubmitFirst(cfg, start, steps, s, ys);
      longer, t := Fill(cfg, start, longer, u, ys[1..]);
      FilledTwice(s, u, t, ys);
    }
  }

  /** Every worker would re-send into a full channel. */
  predicate Blocked(cfg: Config, s: System) {
    AllResending(s) && |s.q.pending| >= cfg.bufferSize && !s.ctxDone
  }

  predicate AllResending(s: System) {
    forall i :: 0 <= i < |s.workers| ==> s.workers[i].Resending?
  }

  /** Only Stop gets them out of there. */
  lemma {:induction false} StaysBlocked(cfg: Config, s: System, more: seq<Step>)
    requires Blocked(cfg, s) && Stop !in more
    ensures Blocked(cfg, Run(cfg, s, more)) && Run(cfg, s, more).workers == s.workers
  {
    if more != [] {
      var front, step := more[..|more| - 1], more[|more| - 1];
      assert step in more && forall m :: m in front ==> m in more;
      StaysBlocked(cfg, s, front);
      if Enabled(cfg, Run(cfg, s, front), step) {
        StepStaysBlocked(cfg, Run(cfg, s, front), step);
      }
      hide Enabled, Do, Blocked;
    }
  }

  lemma StepStaysBlocked(cfg: Config, s: System, step: Step)
    requires Blocked(cfg, s) && step != Stop && Enabled(cfg, s, step)
    ensures Blocked(cfg, Do(cfg, s, step)) && Do(cfg, s, step).workers == s.workers
  {
  }

  lemma {:induction false} AllInHand(workers: seq<Pc>)
    requires forall pc :: pc in workers ==> pc.Resending?
    ensures Count(InHand, workers) == |workers|
  {
    if workers != [] {
      assert workers[0] in workers;
      AllInHand(workers[1..]);
    }
  }

  lemma NothingInFlight(s: System)
    requires Draining(s) && AllResending(s) && !s.ctxDone
    ensures s.q.inFlight == map[]
  {
    forall id, i: nat
      ensures !OwnedBy(s, i, id)
    {
      if i < |s.workers| {
        assert s.workers[i].Resending?;
      }
    }
  }

  lemma StepKeepsWorkers(cfg: Config, s: System, step: Step)
    requires Enabled(cfg, s, step)
    ensures |Do(cfg, s, step).workers| == |s.workers|
  {
    hide CanAct, Record, DispatchQueue.Receive, Forget, DeadLetter, Send, Plan, Judge, NextAttempt;
  }

  lemma {:induction false} WorkersStay(cfg: Config, n: nat, steps: seq<Step>)
    ensures |Run(cfg, Init(n), steps).workers| == n
  {
    if steps != [] {
      hide Do, Enabled;
      var before, step := Run(cfg, Init(n), steps[..|steps| - 1]), steps[|steps| - 1];
      WorkersStay(cfg, n, steps[..|steps| - 1]);
      if Enabled(cfg, before, step) {
        StepKeepsWorkers(cfg, before, step);
      }
    }
  }

  lemma ResendMoves(cfg: Config, s: System, i: nat)
    requires i < |s.workers| && AllResending(s) && |s.q.pending| < cfg.bufferSize
    ensures Run(cfg, s, [Work(i, Resend)]).workers != s.workers
  {
    RunStep(cfg, s, [], Work(i, Resend));
    assert [] + [Work(i, Resend)] == [Work(i, Resend)];
    assert DoResend(s, i).workers[i] == Tallying(false);
  }

  /** With nothing in flight, what is neither acked nor dead-lettered is pending or in a worker's hand. */
  lemma LiveSpecs(cfg: Config, n: nat, steps: seq<Step>)
    requires !Run(cfg, Init(n), steps).log.clash
    requires var s := Run(cfg, Init(n), steps); AllResending(s) && !s.ctxDone
    ensures var s := Run(cfg, Init(n), steps);
      |s.workers| == n && |s.log.accepted| - |s.log.acked| - |s.q.dlq| == |s.q.pending| + n
  {
    hide Run, Safe, Balanced, AttemptsTallied, Init;
    var s := Run(cfg, Init(n), steps);
    SoundAlways(cfg, n, steps);
    WorkersStay(cfg, n, steps);
    AllInHand(s.workers);
    NothingInFlight(s);
  }

  /**
   * When every worker has a retry in hand, their sends find room if and only if the specs neither acked
   * nor dead-lettered are fewer than the buffer and the workers together hold; if they are not, no step
   * of any producer or of Close moves any worker: until Stop the dispatcher stands still.
   */
  lemma RetriesBlockExactly(cfg: Config, n: nat, steps: seq<Step>, i: nat)
    requires !Run(cfg, Init(n), steps).log.clash && i < n
    requires var s := Run(cfg, Init(n), steps); AllResending(s) && !s.ctxDone
    ensures var s := Run(cfg, Init(n), steps);
      var live := |s.log.accepted| - |s.log.acked| - |s.q.dlq|;
      && (Enabled(cfg, s, Work(i, Resend)) <==> live < cfg.bufferSize + n)
      && (live >= cfg.bufferSize + n <==> forall more :: Stop !in more ==> Run(cfg, s, more).workers == s.workers)
  {
    hide Run, Init;
    var s := Run(cfg, Init(n), steps);
    LiveSpecs(cfg, n, steps);
    assert Enabled(cfg, s, Work(i, Resend)) <==> |s.q.pending| < cfg.bufferSize;
    if Blocked(cfg, s) {
      forall more | Stop !in more
        ensures Run(cfg, s, more).workers == s.workers
      {
        StaysBlocked(cfg, s, more);
      }
    } else {
      ResendMoves(cfg, s, i);
      assert Stop !in [Work(i, Resend)];
    }
  }

  /**
   * With one live spec more than the buffer holds, whatever its size, a lone worker blocks on its own
   * retry until Stop: no other step, of any producer or of Close, moves it.
   */
  lemma FullBufferBlocksRetry(cfg: Config, x: WorkerSpec, ys: seq<WorkerSpec>) returns (steps: seq<Step>)
    requires cfg.bufferSize >= 1 && |ys| == cfg.bufferSize && x.Valid() && x.attempt < cfg.maxAttempts
    requires forall j :: 0 <= j < |ys| ==> ys[j].Valid() && ys[j].executionId != x.executionId
    requires forall j, k :: 0 <= j < k < |ys| ==> ys[j].executionId != ys[k].executionId
    ensures var s := Run(cfg, Init(1), steps);
      && !s.log.clash && s.workers == [Resending(NextAttempt(x))]
      && |s.log.accepted| - |s.log.acked| - |s.q.dlq| == cfg.bufferSize + 1
      && forall more :: Stop !in more ==> Run(cfg, s, more).workers == s.workers
  {
    hide Run;
    var s;
    steps, s := RetryInHand(cfg, x);
    steps, s := Fill(cfg, Init(1), steps, s, ys);
    forall more | Stop !in more
      ensures Run(cfg, s, more).workers == s.workers
    {
      StaysBlocked(cfg, s, more);
    }
  }

  /** Both specs of one id are running, and the in-flight map has room for one. */
  lemma SharedIdRunning(cfg: Config, x: WorkerSpec, y: WorkerSpec) returns (steps: seq<Step>, s: System)
    requires cfg.bufferSize >= 1 && x.Valid() && y.Valid() && x.executionId == y.executionId
    ensures s == Run(cfg, Init(2), steps) && s.workers == [Driving(x), Driving(y)]
    ensures s.q == EMPTY.(inFlight := map[x.executionId := y])
    ensures s.log.accepted == [x, y] && s.log.acked == multiset{} && s.log.clash && s.log.unknown == 0
    ensures s.stats.failed == 0
  {
    hide Run;
    steps, s := Begun(cfg, 2);
    assert s.workers == [Looping, Looping];
    steps, s := Submit(cfg, Init(2), steps, s, x);
    assert s.q.pending == [x] && s.log.accepted == [x] && x.executionId in s.log.inUse;
    steps, s := Launch(cfg, Init(2), steps, s, 0);
    assert s.q.pending == [] && s.workers == [Driving(x), Looping];
    steps, s := Submit(cfg, Init(2), steps, s, y);
    assert s.q.pending == [y] && s.log.accepted == [x, y] && s.log.clash;
    assert s.workers == [Driving(x), Looping];
    steps, s := Launch(cfg, Init(2), steps, s, 1);
  }

  /** Two specs under one ExecutionID: the second one fails, and is neither retried nor dead-lettered. */
  lemma SharedIdLosesASpec(cfg: Config, x: WorkerSpec, y: WorkerSpec) returns (steps: seq<Step>)
    requires cfg.bufferSize >= 1 && x.Valid() && y.Valid() && x.executionId == y.executionId
    ensures var s := Run(cfg, Init(2), steps);
      && s.log.clash && s.log.accepted == [x, y] && s.log.unknown == 1 && s.stats.failed == 1
      && s.workers == [Looping, Looping] && s.q == EMPTY && s.log.acked == multiset{x.executionId}
  {
    hide Run;
    var s;
    steps, s := SharedIdRunning(cfg, x, y);
    steps, s := Extend(cfg, Init(2), steps, s, Work(0, Finish(Terminal(Completed))));
    assert s.workers == [Acking(x), Driving(y)];
    steps, s := Extend(cfg, Init(2), steps, s, Work(0, Acknowledge));
    assert s.workers == [Looping, Driving(y)] && s.q.inFlight == map[];
    steps, s := Fail(cfg, Init(2), steps, s, 1);
  }
}
