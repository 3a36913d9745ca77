/** What is left behind once the queue is closed and the workers have gone. */
module DispatcherDrain {
  import opened Specs
  import opened DispatchQueue
  import opened Dispatcher
  import opened DispatcherSafety

  ghost predicate OwnedBy(s: System, i: nat, id: Uuid) {
    i < |s.workers| && Owns(s.workers[i]) && s.workers[i].spec.executionId == id
  }

  predicate PendingAt(s: System, k: int, id: Uuid) {
    0 <= k < |s.q.pending| && s.q.pending[k].executionId == id
  }

  /** What was accepted after the last worker left is pending for good. */
  ghost predicate Stranded(s: System) {
    && (s.log.stranded != {} ==> AllExited(s))
    && forall id :: id in s.log.stranded ==> exists k :: PendingAt(s, k, id)
  }

  /** As long as ctx is not cancelled: who may have exited, who owns what is in flight, what is stranded. */
  ghost predicate Draining(s: System) {
    && (s.q.closeSignalled ==> s.q.closed)
    && Stranded(s)
    && (!s.ctxDone ==>
        && (forall i :: 0 <= i < |s.workers| ==>
              !s.workers[i].Restoring? && (s.workers[i].Exited? ==> s.q.closeSignalled))
        && (forall id :: id in s.q.inFlight ==> exists i :: OwnedBy(s, i, id))
        && s.log.stranded <= s.log.late
        && (AllExited(s) ==> forall k :: 0 <= k < |s.q.pending| ==> s.q.pending[k].executionId in s.log.stranded))
  }

  lemma StillOwned(s: System, t: System, i: nat)
    requires i < |s.workers| == |t.workers| && t.workers == s.workers[i := t.workers[i]]
    requires forall id :: id in s.q.inFlight ==> exists j :: OwnedBy(s, j, id)
    requires forall id :: id in t.q.inFlight ==> id in s.q.inFlight || OwnedBy(t, i, id)
    requires forall id :: OwnedBy(s, i, id) ==> OwnedBy(t, i, id) || id !in t.q.inFlight
    ensures forall id :: id in t.q.inFlight ==> exists j :: OwnedBy(t, j, id)
  {
    forall id | id in t.q.inFlight
      ensures exists j :: OwnedBy(t, j, id)
    {
      if !OwnedBy(t, i, id) {
        var j :| OwnedBy(s, j, id);
        assert OwnedBy(t, j, id);
      }
    }
  }

  /** What a step of worker i must look like to keep `Draining`. */
  ghost predicate Orderly(s: System, t: System, i: nat)
    requires i < |s.workers|
  {
    && |t.workers| == |s.workers| && t.workers == s.workers[i := t.workers[i]]
    && t.ctxDone == s.ctxDone && t.q.closed == s.q.closed && t.q.closeSignalled == s.q.closeSignalled
    && t.log.late == s.log.late && t.log.stranded == s.log.stranded && !s.workers[i].Exited?
    && (!s.ctxDone ==>
        && !t.workers[i].Restoring?
        && (t.workers[i].Exited? ==> t.q.closeSignalled && t.q.pending == [])
        && (forall id :: id in t.q.inFlight ==> id in s.q.inFlight || OwnedBy(t, i, id))
        && (forall id :: OwnedBy(s, i, id) ==> OwnedBy(t, i, id) || id !in t.q.inFlight))
  }

  lemma OrderlyKeeps(s: System, t: System, i: nat)
    requires Draining(s) && i < |s.workers| && Orderly(s, t, i)
    ensures Draining(t)
  {
    if !s.ctxDone {
      StillOwned(s, t, i);
      assert AllExited(t) ==> t.workers[i].Exited?;
    }
  }

  lemma FinishIsOrderly(s: System, i: nat, outcome: Outcome)
    requires i < |s.workers| && s.workers[i].Driving?
    ensures Orderly(s, DoFinish(s, i, outcome), i)
  {
  }

  lemma DecideIsOrderly(cfg: Config, s: System, i: nat)
    requires Owned(s) && i < |s.workers| && s.workers[i].Nacking?
    ensures Orderly(s, DoDecide(cfg, s, i), i)
  {
    DecideIsQuiet(cfg, s, i);
  }

  lemma TakeIsOrderly(s: System, i: nat)
    requires i < |s.workers| && s.workers[i].Dequeuing? && s.q.pending != []
    ensures Orderly(s, DoTake(s, i), i)
  {
  }

  lemma EnterIsOrderly(s: System, i: nat)
    requires i < |s.workers| && s.workers[i].Received?
    ensures Orderly(s, DoEnter(s, i), i)
  {
  }

  lemma CountSpawnIsOrderly(s: System, i: nat)
    requires i < |s.workers| && s.workers[i].Starting?
    ensures Orderly(s, DoCountSpawn(s, i), i)
  {
  }

  lemma AcknowledgeIsOrderly(s: System, i: nat)
    requires i < |s.workers| && s.workers[i].Acking?
    ensures Orderly(s, DoAcknowledge(s, i), i)
  {
  }

  lemma DeadLetterIsOrderly(s: System, i: nat)
    requires i < |s.workers| && s.workers[i].Dropping?
    ensures Orderly(s, DoDeadLetter(s, i), i)
  {
  }

  lemma ReleaseIsOrderly(s: System, i: nat)
    requires i < |s.workers| && s.workers[i].Releasing?
    ensures Orderly(s, DoRelease(s, i), i)
  {
  }

  lemma ResendIsOrderly(s: System, i: nat)
    requires i < |s.workers| && s.workers[i].Resending?
    ensures Orderly(s, DoResend(s, i), i)
  {
  }

  lemma RestoreIsOrderly(s: System, i: nat)
    requires i < |s.workers| && s.workers[i].Restoring? && s.ctxDone
    ensures Orderly(s, DoRestore(s, i), i)
  {
  }

  lemma TallyIsOrderly(s: System, i: nat)
    requires i < |s.workers| && s.workers[i].Tallying?
    ensures Orderly(s, DoTally(s, i), i)
  {
  }

  lemma WorkIsOrderly(cfg: Config, s: System, i: nat, act: Act)
    requires Owned(s) && Enabled(cfg, s, Work(i, act)) && (s.workers[i].Restoring? ==> s.ctxDone)
    ensures Orderly(s, DoWork(cfg, s, i, act), i)
  {
    hide Owned, DoTake, DoEnter, DoCountSpawn, DoFinish, DoAcknowledge, DoDecide, DoDeadLetter, DoRelease, DoResend,
        DoRestore, DoTally;
    match act
    case Take => TakeIsOrderly(s, i);
    case Enter => EnterIsOrderly(s, i);
    case CountSpawn => CountSpawnIsOrderly(s, i);
    case Finish(outcome) => FinishIsOrderly(s, i, outcome);
    case Acknowledge => AcknowledgeIsOrderly(s, i);
    case Decide => DecideIsOrderly(cfg, s, i);
    case Discard => DeadLetterIsOrderly(s, i);
    case Release => ReleaseIsOrderly(s, i);
    case Resend => ResendIsOrderly(s, i);
    case Restore => RestoreIsOrderly(s, i);
    case Tally => TallyIsOrderly(s, i);
    case _ =>
  }

  lemma StepDrains(cfg: Config, s: System, step: Step)
    requires Owned(s) && Draining(s) && Enabled(cfg, s, step)
    ensures Draining(Do(cfg, s, step))
  {
    var t := Do(cfg, s, step);
    if step.Work? {
      WorkIsOrderly(cfg, s, step.worker, step.act);
      OrderlyKeeps(s, t, step.worker);
    } else {
      forall id, i | OwnedBy(s, i, id)
        ensures OwnedBy(t, i, id)
      {
      }
      assert AllExited(t) == AllExited(s);
      assert AllExited(s) && !s.ctxDone ==> s.workers[0].Exited? && s.q.closed;
      StrandedKeeps(cfg, s, step);
    }
  }

  lemma StrandedKeeps(cfg: Config, s: System, step: Step)
    requires Stranded(s) && Enabled(cfg, s, step) && !step.Work?
    ensures Stranded(Do(cfg, s, step))
  {
    var t := Do(cfg, s, step);
    forall id | id in t.log.stranded
      ensures exists k :: PendingAt(t, k, id)
    {
      if id in s.log.stranded {
        var k :| PendingAt(s, k, id);
        assert PendingAt(t, k, id);
      } else {
        assert PendingAt(t, |s.q.pending|, id);
      }
    }
  }
}
