/** The dispatcher's counters and the sizes of the queue's structures, balanced in every run. */
module DispatcherCounts {
  import opened Specs
  import opened DispatchQueue
  import opened Dispatcher
  import opened DispatcherSafety

  datatype Tag = MidRun | Acknowledging | Settling | TallyDrop | InHand

  predicate Tagged(tag: Tag, pc: Pc) {
    match tag
    case MidRun => pc.Driving?
    case Acknowledging => pc.Acking?
    case Settling => pc.Nacking? || pc.Dropping? || pc.Releasing? || pc.Resending? || pc.Restoring? || pc.Tallying?
    case TallyDrop => pc.Tallying? && pc.dropped
    case InHand => Holds(pc)
  }

  function One(tag: Tag, pc: Pc): int {
    if Tagged(tag, pc) then 1 else 0
  }

  /** How many workers stand where `tag` says. */
  function Count(tag: Tag, workers: seq<Pc>): int {
    if workers == [] then 0 else One(tag, workers[0]) + Count(tag, workers[1..])
  }

  lemma {:induction false} CountUpdate(tag: Tag, workers: seq<Pc>, i: nat, pc: Pc)
    requires i < |workers|
    ensures Count(tag, workers[i := pc]) == Count(tag, workers) - One(tag, workers[i]) + One(tag, pc)
  {
    if i == 0 {
      assert workers[i := pc][1..] == workers[1..];
    } else {
      assert workers[i := pc][1..] == workers[1..][i - 1 := pc];
      CountUpdate(tag, workers[1..], i - 1, pc);
    }
  }

  lemma {:induction workers} CountAtLeast(tag: Tag, workers: seq<Pc>)
    ensures 0 <= Count(tag, workers) <= |workers|
    ensures (forall pc :: pc in workers ==> !Tagged(tag, pc)) ==> Count(tag, workers) == 0
  {
  }

  lemma {:induction false} CountPositive(tag: Tag, workers: seq<Pc>, i: nat)
    requires i < |workers| && Tagged(tag, workers[i])
    ensures Count(tag, workers) >= 1
  {
    CountAtLeast(tag, workers[1..]);
    if i != 0 {
      CountPositive(tag, workers[1..], i - 1);
    }
  }

  /** Spawned, Failed and Cancelled against where the workers stand; Completed and Dropped against the queue. */
  ghost predicate Balanced(s: System) {
    && s.stats.spawned
       == s.stats.completed + s.stats.failed + s.stats.cancelled + Count(MidRun, s.workers)
    && s.stats.failed + s.stats.cancelled
       == s.stats.retries + s.stats.dropped + s.log.failedNacks + Count(Settling, s.workers)
    && s.stats.completed == |s.log.acked| + Count(Acknowledging, s.workers)
    && s.q.dropped == s.stats.dropped + Count(TallyDrop, s.workers)
  }

  ghost predicate Sized(s: System) {
    |s.log.accepted| == |s.q.pending| + Count(InHand, s.workers) + |s.q.inFlight| + |s.log.acked| + |s.q.dlq|
  }

  /** The two sides of each equation of `Balanced` and `Sized`, apart from the workers' share. */
  function Off(s: System, tag: Tag): int {
    match tag
    case MidRun => s.stats.spawned - s.stats.completed - s.stats.failed - s.stats.cancelled
    case Acknowledging => s.stats.completed - |s.log.acked|
    case Settling => s.stats.failed + s.stats.cancelled - s.stats.retries - s.stats.dropped - s.log.failedNacks
    case TallyDrop => s.q.dropped - s.stats.dropped
    case InHand => |s.log.accepted| - |s.q.pending| - |s.q.inFlight| - |s.log.acked| - |s.q.dlq|
  }

  /** A step of worker i shifts both sides of each equation alike. */
  ghost predicate Shifted(s: System, t: System, i: nat)
    requires i < |s.workers| == |t.workers|
  {
    && t.workers == s.workers[i := t.workers[i]]
    && forall tag :: Off(t, tag) - One(tag, t.workers[i]) == Off(s, tag) - One(tag, s.workers[i])
  }

  lemma OffMeans(s: System)
    ensures Balanced(s) && Sized(s) <==> forall tag :: Off(s, tag) == Count(tag, s.workers)
  {
    assert Balanced(s) && Sized(s) <==>
      && Off(s, MidRun) == Count(MidRun, s.workers) && Off(s, Settling) == Count(Settling, s.workers)
      && Off(s, Acknowledging) == Count(Acknowledging, s.workers) && Off(s, TallyDrop) == Count(TallyDrop, s.workers)
      && Off(s, InHand) == Count(InHand, s.workers);
  }

  lemma ShiftKeeps(s: System, t: System, i: nat)
    requires i < |s.workers| == |t.workers| && Shifted(s, t, i) && Balanced(s) && Sized(s)
    ensures Balanced(t) && Sized(t)
  {
    OffMeans(s);
    OffMeans(t);
    hide Balanced, Sized, Off, One;
    forall tag
      ensures Off(t, tag) == Count(tag, t.workers)
    {
      CountUpdate(tag, s.workers, i, t.workers[i]);
    }
  }

  lemma MapGrows<V>(m: map<Uuid, V>, id: Uuid, v: V)
    requires id !in m
    ensures |m[id := v]| == |m| + 1
  {
    assert m[id := v].Keys == m.Keys + {id};
  }

  lemma MapShrinks<V>(m: map<Uuid, V>, id: Uuid)
    requires id in m
    ensures |m - {id}| == |m| - 1
  {
    assert (m - {id}).Keys == m.Keys - {id};
    assert |m.Keys - {id}| == |m.Keys| - 1;
  }

  lemma TakeShifts(s: System, i: nat)
    requires i < |s.workers| && s.workers[i].Dequeuing? && s.q.pending != []
    ensures Shifted(s, DoTake(s, i), i)
  {
  }

  lemma EnterShifts(cfg: Config, s: System, i: nat)
    requires Conserved(cfg, s) && i < |s.workers| && s.workers[i].Received?
    ensures Shifted(s, DoEnter(s, i), i)
  {
    HandIsElsewhere(cfg, s, i);
    MapGrows(s.q.inFlight, s.workers[i].spec.executionId, s.workers[i].spec);
  }

  lemma CountSpawnShifts(s: System, i: nat)
    requires i < |s.workers| && s.workers[i].Starting?
    ensures Shifted(s, DoCountSpawn(s, i), i)
  {
  }

  lemma AcknowledgeShifts(s: System, i: nat)
    requires Owned(s) && i < |s.workers| && s.workers[i].Acking?
    ensures Shifted(s, DoAcknowledge(s, i), i)
  {
    MapShrinks(s.q.inFlight, s.workers[i].spec.executionId);
  }

  lemma DeadLetterShifts(s: System, i: nat)
    requires Owned(s) && i < |s.workers| && s.workers[i].Dropping?
    ensures Shifted(s, DoDeadLetter(s, i), i)
  {
    MapShrinks(s.q.inFlight, s.workers[i].spec.executionId);
  }

  lemma ReleaseShifts(s: System, i: nat)
    requires Owned(s) && i < |s.workers| && s.workers[i].Releasing?
    ensures Shifted(s, DoRelease(s, i), i)
  {
    MapShrinks(s.q.inFlight, s.workers[i].spec.executionId);
  }

  lemma ResendShifts(s: System, i: nat)
    requires i < |s.workers| && s.workers[i].Resending?
    ensures Shifted(s, DoResend(s, i), i)
  {
  }

  lemma RestoreShifts(cfg: Config, s: System, i: nat)
    requires Conserved(cfg, s) && i < |s.workers| && s.workers[i].Restoring?
    ensures Shifted(s, DoRestore(s, i), i)
  {
    HandIsElsewhere(cfg, s, i);
    MapGrows(s.q.inFlight, s.workers[i].spec.executionId, s.workers[i].spec);
  }

  lemma TallyShifts(s: System, i: nat)
    requires i < |s.workers| && s.workers[i].Tallying?
    ensures Shifted(s, DoTally(s, i), i)
  {
  }

  lemma FinishShifts(s: System, i: nat, outcome: Outcome)
    requires i < |s.workers| && s.workers[i].Driving?
    ensures Shifted(s, DoFinish(s, i, outcome), i)
  {
    hide Judge;
  }

  lemma DecideShifts(cfg: Config, s: System, i: nat)
    requires Owned(s) && i < |s.workers| && s.workers[i].Nacking?
    ensures Shifted(s, DoDecide(cfg, s, i), i)
  {
  }

  /** Moves of the program counter alone, between places that no tag tells apart. */
  lemma GotoShifts(s: System, i: nat, pc: Pc)
    requires i < |s.workers| && forall tag :: Tagged(tag, pc) <==> Tagged(tag, s.workers[i])
    ensures Shifted(s, Goto(s, i, pc), i)
  {
  }

  lemma WorkShifts(cfg: Config, s: System, i: nat, act: Act)
    requires Conserved(cfg, s) && Owned(s) && Enabled(cfg, s, Work(i, act))
    ensures Shifted(s, DoWork(cfg, s, i, act), i)
  {
    hide Shifted, Conserved, Owned;
    hide DoTake, DoEnter, DoCountSpawn, DoFinish, DoAcknowledge, DoDecide, DoDeadLetter, DoRelease, DoResend,
        DoRestore, DoTally;
    match act
    case Take => TakeShifts(s, i);
    case Enter => EnterShifts(cfg, s, i);
    case CountSpawn => CountSpawnShifts(s, i);
    case Finish(outcome) => FinishShifts(s, i, outcome);
    case Acknowledge => AcknowledgeShifts(s, i);
    case Decide => DecideShifts(cfg, s, i);
    case Discard => DeadLetterShifts(s, i);
    case Release => ReleaseShifts(s, i);
    case Resend => ResendShifts(s, i);
    case Restore => RestoreShifts(cfg, s, i);
    case Tally => TallyShifts(s, i);
    case Poll => GotoShifts(s, i, Dequeuing);
    case QuitClosed => GotoShifts(s, i, Exited);
    case QuitCtx => GotoShifts(s, i, Exited);
    case RetryDequeue => GotoShifts(s, i, Looping);
    case GiveUp => GotoShifts(s, i, Restoring(s.workers[i].spec));
  }

  lemma StepBalances(cfg: Config, s: System, step: Step)
    requires Safe(cfg, s) && Balanced(s) && Sized(s) && Enabled(cfg, s, step)
    ensures Balanced(Do(cfg, s, step)) && Sized(Do(cfg, s, step))
  {
    if step.Work? {
      WorkShifts(cfg, s, step.worker, step.act);
      ShiftKeeps(s, DoWork(cfg, s, step.worker, step.act), step.worker);
    }
  }
}
