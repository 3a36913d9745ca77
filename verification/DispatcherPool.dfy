/**
 * The Dispatcher object (src/internal/dispatch/dispatcher.go) as one goroutine runs it. HandleSpec
 * is tied to module Dispatcher: what it does to the counters and the queue is what its worker's
 * steps do when no other step comes between them.
 */
module DispatcherPool {
  import opened Specs
  import opened DispatchQueue
  import opened Dispatcher
  import opened DispatcherRuns

  datatype StopReturn = Stopped | StopCtxErr | StopBlocks

  class Pool {
    const queue: InMemoryQueue
    var workers: int
    var running: bool
    var cancelled: bool
    var stats: Stats

    constructor (queue: InMemoryQueue)
      ensures this.queue == queue && workers == 0 && !running && !cancelled && stats == Stats(0, 0, 0, 0, 0, 0)
    {
      this.queue := queue;
      workers, running, cancelled, stats := 0, false, false, Stats(0, 0, 0, 0, 0, 0);
    }

    /** Launches `n` worker loops unless some are running; `launched` is how many. */
    method Start(n: int) returns (ok: bool, launched: int)
      modifies this
      ensures ok <==> n >= 1
      ensures launched == if ok && !old(running) then n else 0
      ensures running == (old(running) || ok) && stats == old(stats)
      ensures if launched > 0 then workers == n && !cancelled
              else workers == old(workers) && cancelled == old(cancelled)
    {
      launched := 0;
      if n < 1 {
        return false, 0;
      }
      if running {
        return true, 0;
      }
      running, workers, cancelled := true, n, false;
      return true, n;
    }

    /**
     * `drained` and `ctxDone` say whether, when Stop waits, the loops have ended and its ctx is over;
     * with both, `preferCtx` is the select's choice.
     */
    method Stop(drained: bool, ctxDone: bool, preferCtx: bool) returns (r: StopReturn)
      modifies this
      ensures !running && cancelled == (old(cancelled) || old(running))
      ensures workers == old(workers) && stats == old(stats)
      ensures !old(running) ==> r == Stopped
      ensures old(running) ==>
        && (r.Stopped? ==> drained) && (r.StopCtxErr? ==> ctxDone) && (r.StopBlocks? <==> !drained && !ctxDone)
    {
      if !running {
        return Stopped;
      }
      running := false;
      cancelled := true;
      if drained && !(ctxDone && preferCtx) {
        return Stopped;
      }
      return if ctxDone then StopCtxErr else StopBlocks;
    }

    method RecordNackResult(r: NackReturn)
      modifies this
      ensures stats == old(stats).(dropped := old(stats).dropped + if r.Dropped? then 1 else 0,
                                   retries := old(stats).retries + if r.Retried? then 1 else 0)
      ensures workers == old(workers) && running == old(running) && cancelled == old(cancelled)
    {
      if r.Dropped? {
        stats := stats.(dropped := stats.dropped + 1);
      }
      if r.Retried? {
        stats := stats.(retries := stats.retries + 1);
      }
    }

    /** Counts what Spawn and Wait came back with. */
    method CountOutcome(outcome: Outcome) returns (completed: bool)
      modifies this`stats
      ensures completed <==> outcome == Terminal(Completed)
      ensures stats ==
        if outcome == Terminal(Completed) then old(stats).(completed := old(stats).completed + 1)
        else if outcome == Terminal(Cancelled) || outcome == WaitError(true) || (outcome.WaitError? && cancelled)
        then old(stats).(cancelled := old(stats).cancelled + 1)
        else old(stats).(failed := old(stats).failed + 1)
    {
      completed := false;
      match outcome {
        case SpawnError =>
          stats := stats.(failed := stats.failed + 1);
        case WaitError(canceled) =>
          if canceled || cancelled {
            stats := stats.(cancelled := stats.cancelled + 1);
          } else {
            stats := stats.(failed := stats.failed + 1);
          }
        case Terminal(status) =>
          if status == Completed {
            completed := true;
            stats := stats.(completed := stats.completed + 1);
          } else if status == Cancelled {
            stats := stats.(cancelled := stats.cancelled + 1);
          } else {
            stats := stats.(failed := stats.failed + 1);
          }
      }
    }

    /**
     * One spec through Spawn, Wait and Ack or Nack. `s` and `i` are any system state that shows
     * this queue and these counters and has worker i about to handle `spec`; `steps` are that
     * worker's steps. When Nack's send would wait, the method's run stops in the middle of it.
     */
    method HandleSpec(spec: WorkerSpec, outcome: Outcome, preferCtx: bool, ghost cfg: Config, ghost s: System,
      ghost i: nat)
      returns (ghost steps: seq<Step>, blocked: bool)
      requires queue.Valid() && cfg == Config(queue.bufferSize, queue.maxAttempts)
      requires s.q == queue.Model() && s.stats == stats && s.ctxDone == cancelled
      requires i < |s.workers| && s.workers[i] == Starting(spec)
      modifies this, queue
      ensures queue.Valid()
      ensures forall step :: step in steps ==> step.Work? && step.worker == i
      ensures var t := Run(cfg, s, steps);
        && t.q == queue.Model() && t.stats == stats
        && t.workers == s.workers[i := if blocked then Resending(NextAttempt(spec)) else Looping]
      ensures blocked ==> |queue.pending| == queue.bufferSize && !cancelled
      ensures Settled(cfg, spec, outcome, old(queue.Model()), queue.Model(), blocked || cancelled)
      ensures workers == old(workers) && running == old(running) && cancelled == old(cancelled)
    {
      hide Run, Settled, Plan, AfterNack, Judge, Record, Send, DeadLetter;
      blocked := false;
      stats := stats.(spawned := stats.spawned + 1);
      ghost var t, q := s, queue.Model();
      var completed := CountOutcome(outcome);
      if completed {
        var known := queue.Ack(spec);
        JudgeMeans(outcome, cancelled);
        AckSettles(cfg, spec, q, queue.Model());
        steps, t := AckRun(cfg, s, i, outcome);
        return;
      }
      var r := queue.Nack(spec, cancelled, preferCtx);
      RecordNackResult(r);
      blocked := r.NackBlocks?;
      JudgeMeans(outcome, cancelled);
      NackMeans(cfg, q, spec, r, queue.Model());
      NackSettles(cfg, spec, outcome, q, queue.Model(), r, blocked || cancelled);
      steps, t := NackRun(cfg, s, i, outcome, r);
    }
  }

  /**
   * What becomes of the spec, by the outcome of Spawn and Wait: acked if it was completed; else dead-lettered
   * when the queue is closed or the attempts are used up; else it goes to the end of the channel with the
   * next attempt, unless the send is given up or waits.
   */
  predicate Settled(cfg: Config, spec: WorkerSpec, outcome: Outcome, before: Queue, after: Queue, givenUp: bool) {
    var id, rest := spec.executionId, before.inFlight - {spec.executionId};
    if outcome == Terminal(Completed) then after == before.(inFlight := rest)
    else if id !in before.inFlight then after == before
    else if before.closed || spec.attempt >= cfg.maxAttempts
    then after == before.(inFlight := rest, dropped := before.dropped + 1, dlq := before.dlq + [spec])
    else
      var retry := spec.(attempt := spec.attempt + 1);
      || after == before.(inFlight := rest, pending := before.pending + [retry])
      || (givenUp && (after == before.(inFlight := rest) || after == before.(inFlight := rest[id := retry])))
  }

  lemma JudgeMeans(outcome: Outcome, stopped: bool)
    ensures Judge(outcome, stopped).Success? <==> outcome == Terminal(Completed)
    ensures Judge(outcome, stopped).Cancellation? <==>
      outcome == Terminal(Cancelled) || outcome == WaitError(true) || (outcome.WaitError? && stopped)
  {
  }

  lemma NackMeans(cfg: Config, q: Queue, spec: WorkerSpec, r: NackReturn, q': Queue)
    requires r.UnknownSpec? <==> spec.executionId !in q.inFlight
    requires r.Dropped? <==> spec.executionId in q.inFlight && (q.closed || spec.attempt >= cfg.maxAttempts)
    requires
      var id, retry := spec.executionId, spec.(attempt := spec.attempt + 1);
      q' ==
      match r
      case UnknownSpec => q
      case Dropped => q.(inFlight := q.inFlight - {id}, dlq := q.dlq + [spec], dropped := q.dropped + 1)
      case Retried => q.(inFlight := q.inFlight - {id}, pending := q.pending + [retry])
      case NackCtxErr => q.(inFlight := q.inFlight[id := retry])
      case NackBlocks => q.(inFlight := q.inFlight - {id})
    ensures q' == AfterNack(q, spec, r)
    ensures r.UnknownSpec? <==> Plan(q, cfg.maxAttempts, spec).Unknown?
    ensures r.Dropped? <==> Plan(q, cfg.maxAttempts, spec).Drop?
  {
    assert (q.inFlight - {spec.executionId})[spec.executionId := NextAttempt(spec)]
        == q.inFlight[spec.executionId := NextAttempt(spec)];
  }

  lemma AckSettles(cfg: Config, spec: WorkerSpec, q: Queue, q': Queue)
    requires q' == if spec.executionId in q.inFlight then Forget(q, spec) else q
    ensures forall givenUp :: Settled(cfg, spec, Terminal(Completed), q, q', givenUp)
  {
    assert spec.executionId !in q.inFlight ==> q.inFlight - {spec.executionId} == q.inFlight;
  }

  lemma NackSettles(cfg: Config, spec: WorkerSpec, outcome: Outcome, q: Queue, q': Queue, r: NackReturn, givenUp: bool)
    requires outcome != Terminal(Completed) && q' == AfterNack(q, spec, r)
    requires r.UnknownSpec? <==> Plan(q, cfg.maxAttempts, spec).Unknown?
    requires r.Dropped? <==> Plan(q, cfg.maxAttempts, spec).Drop?
    requires r.NackBlocks? || r.NackCtxErr? ==> givenUp
    ensures Settled(cfg, spec, outcome, q, q', givenUp)
  {
  }

  lemma SpawnRun(cfg: Config, s: System, i: nat, outcome: Outcome) returns (steps: seq<Step>, t: System)
    requires i < |s.workers| && s.workers[i].Starting?
    ensures t == DoFinish(DoCountSpawn(s, i), i, outcome) && t == Run(cfg, s, steps)
    ensures steps == [Work(i, CountSpawn), Work(i, Finish(outcome))]
  {
    RunNothing(cfg, s);
    hide Run;
    steps, t := Extend(cfg, s, [], s, Work(i, CountSpawn));
    steps, t := Extend(cfg, s, steps, t, Work(i, Finish(outcome)));
  }

  lemma RunNothing(cfg: Config, s: System)
    ensures Run(cfg, s, []) == s
  {
  }

  /** A worker's steps from Spawn to Ack. */
  lemma AckRun(cfg: Config, s: System, i: nat, outcome: Outcome) returns (steps: seq<Step>, t: System)
    requires i < |s.workers| && s.workers[i].Starting? && Judge(outcome, s.ctxDone).Success?
    ensures forall step :: step in steps ==> step.Work? && step.worker == i
    ensures var spec := s.workers[i].spec;
      && t == Run(cfg, s, steps) && t.workers == s.workers[i := Looping]
      && t.stats == s.stats.(spawned := s.stats.spawned + 1, completed := s.stats.completed + 1)
      && t.q == if spec.executionId in s.q.inFlight then Forget(s.q, spec) else s.q
  {
    hide Run;
    steps, t := SpawnRun(cfg, s, i, outcome);
    steps, t := Extend(cfg, s, steps, t, Work(i, Acknowledge));
  }

  /** A worker's steps from Spawn to the end of Nack. */
  lemma NackRun(cfg: Config, s: System, i: nat, outcome: Outcome, r: NackReturn) returns (steps: seq<Step>, t: System)
    requires i < |s.workers| && s.workers[i].Starting? && !Judge(outcome, s.ctxDone).Success?
    requires r.UnknownSpec? <==> Plan(s.q, cfg.maxAttempts, s.workers[i].spec).Unknown?
    requires r.Dropped? <==> Plan(s.q, cfg.maxAttempts, s.workers[i].spec).Drop?
    requires r.Retried? ==> |s.q.pending| < cfg.bufferSize
    requires r.NackCtxErr? ==> s.ctxDone
    ensures forall step :: step in steps ==> step.Work? && step.worker == i
    ensures var spec := s.workers[i].spec;
      var counted := s.stats.(spawned := s.stats.spawned + 1);
      && t == Run(cfg, s, steps) && t.q == AfterNack(s.q, spec, r)
      && t.workers == s.workers[i := if r.NackBlocks? then Resending(NextAttempt(spec)) else Looping]
      && t.stats == AfterRecord(if Judge(outcome, s.ctxDone).Cancellation?
                                then counted.(cancelled := counted.cancelled + 1)
                                else counted.(failed := counted.failed + 1), r)
  {
    hide Run;
    steps, t := SpawnRun(cfg, s, i, outcome);
    ghost var u := t;
    steps, t := NackSteps(cfg, s, steps, t, i, r);
    assert Nacked(u, t, i, r);
  }

  /** The queue after Nack came to the result `r` on `spec`. */
  function AfterNack(q: Queue, spec: WorkerSpec, r: NackReturn): Queue {
    match r
    case UnknownSpec => q
    case Dropped => DeadLetter(q, spec)
    case Retried => Send(Forget(q, spec), NextAttempt(spec))
    case NackCtxErr => Record(Forget(q, spec), NextAttempt(spec))
    case NackBlocks => Forget(q, spec)
  }

  function AfterRecord(stats: Stats, r: NackReturn): Stats {
    match r
    case Dropped => stats.(dropped := stats.dropped + 1)
    case Retried => stats.(retries := stats.retries + 1)
    case _ => stats
  }

  ghost predicate Nacked(s: System, t: System, i: nat, r: NackReturn)
    requires i < |s.workers| && s.workers[i].Nacking?
  {
    var spec := s.workers[i].spec;
    && t.workers == s.workers[i := if r.NackBlocks? then Resending(NextAttempt(spec)) else Looping]
    && t.q == AfterNack(s.q, spec, r) && t.stats == AfterRecord(s.stats, r)
  }

  lemma DropSteps(cfg: Config, start: System, steps: seq<Step>, s: System, i: nat)
    returns (longer: seq<Step>, t: System)
    requires s == Run(cfg, start, steps) && i < |s.workers| && s.workers[i].Nacking?
    requires Plan(s.q, cfg.maxAttempts, s.workers[i].spec).Drop?
    ensures longer == steps + [Work(i, Decide), Work(i, Discard), Work(i, Tally)]
    ensures t == Run(cfg, start, longer) && Nacked(s, t, i, Dropped)
  {
    hide Run;
    longer, t := Extend(cfg, start, steps, s, Work(i, Decide));
    longer, t := Extend(cfg, start, longer, t, Work(i, Discard));
    longer, t := Extend(cfg, start, longer, t, Work(i, Tally));
  }

  lemma ReleaseSteps(cfg: Config, start: System, steps: seq<Step>, s: System, i: nat)
    returns (longer: seq<Step>, t: System)
    requires s == Run(cfg, start, steps) && i < |s.workers| && s.workers[i].Nacking?
    requires Plan(s.q, cfg.maxAttempts, s.workers[i].spec).Requeue?
    ensures longer == steps + [Work(i, Decide), Work(i, Release)]
    ensures t == Run(cfg, start, longer) && Nacked(s, t, i, NackBlocks) && t.ctxDone == s.ctxDone
  {
    hide Run;
    longer, t := Extend(cfg, start, steps, s, Work(i, Decide));
    longer, t := Extend(cfg, start, longer, t, Work(i, Release));
  }

  lemma RetrySteps(cfg: Config, start: System, steps: seq<Step>, s: System, i: nat)
    returns (longer: seq<Step>, t: System)
    requires s == Run(cfg, start, steps) && i < |s.workers| && s.workers[i].Nacking?
    requires Plan(s.q, cfg.maxAttempts, s.workers[i].spec).Requeue? && |s.q.pending| < cfg.bufferSize
    ensures longer == steps + [Work(i, Decide), Work(i, Release), Work(i, Resend), Work(i, Tally)]
    ensures t == Run(cfg, start, longer) && Nacked(s, t, i, Retried)
  {
    hide Run;
    longer, t := ReleaseSteps(cfg, start, steps, s, i);
    longer, t := Extend(cfg, start, longer, t, Work(i, Resend));
    longer, t := Extend(cfg, start, longer, t, Work(i, Tally));
  }

  lemma CtxSteps(cfg: Config, start: System, steps: seq<Step>, s: System, i: nat) returns (longer: seq<Step>, t: System)
    requires s == Run(cfg, start, steps) && i < |s.workers| && s.workers[i].Nacking?
    requires Plan(s.q, cfg.maxAttempts, s.workers[i].spec).Requeue? && s.ctxDone
    ensures longer == steps + [Work(i, Decide), Work(i, Release), Work(i, GiveUp), Work(i, Restore)]
    ensures t == Run(cfg, start, longer) && Nacked(s, t, i, NackCtxErr)
  {
    hide Run;
    longer, t := ReleaseSteps(cfg, start, steps, s, i);
    longer, t := Extend(cfg, start, longer, t, Work(i, GiveUp));
    longer, t := Extend(cfg, start, longer, t, Work(i, Restore));
  }

  /** The steps by which Nack and recordNackResult come to the result `r`. */
  lemma NackSteps(cfg: Config, start: System, steps: seq<Step>, s: System, i: nat, r: NackReturn)
    returns (longer: seq<Step>, t: System)
    requires s == Run(cfg, start, steps) && i < |s.workers| && s.workers[i].Nacking?
    requires r.UnknownSpec? <==> Plan(s.q, cfg.maxAttempts, s.workers[i].spec).Unknown?
    requires r.Dropped? <==> Plan(s.q, cfg.maxAttempts, s.workers[i].spec).Drop?
    requires r.Retried? ==> |s.q.pending| < cfg.bufferSize
    requires r.NackCtxErr? ==> s.ctxDone
    ensures t == Run(cfg, start, longer) && Nacked(s, t, i, r)
    ensures forall step :: step in longer ==> step in steps || (step.Work? && step.worker == i)
  {
    hide Run, Nacked;
    match r
    case UnknownSpec => longer, t := UnknownSteps(cfg, start, steps, s, i);
    case Dropped => longer, t := DropSteps(cfg, start, steps, s, i);
    case Retried => longer, t := RetrySteps(cfg, start, steps, s, i);
    case NackCtxErr => longer, t := CtxSteps(cfg, start, steps, s, i);
    case NackBlocks => longer, t := ReleaseSteps(cfg, start, steps, s, i);
  }

  lemma UnknownSteps(cfg: Config, start: System, steps: seq<Step>, s: System, i: nat)
    returns (longer: seq<Step>, t: System)
    requires s == Run(cfg, start, steps) && i < |s.workers| && s.workers[i].Nacking?
    requires Plan(s.q, cfg.maxAttempts, s.workers[i].spec).Unknown?
    ensures longer == steps + [Work(i, Decide)]
    ensures t == Run(cfg, start, longer) && Nacked(s, t, i, UnknownSpec)
  {
    hide Run;
    longer, t := Extend(cfg, start, steps, s, Work(i, Decide));
  }
}
