/**
 * N dispatcher workers, any number of producers and Close and Stop, interleaved over one queue
 * (src/internal/dispatch/dispatcher.go over queue.go). A step is one mutex section, channel send
 * or channel receive; a worker's program counter says where it stands between two steps.
 */
module Dispatcher {
  import opened Specs
  import opened DispatchQueue

  datatype Config = Config(bufferSize: nat, maxAttempts: int)

  /** What Spawn followed by Wait came back with. */
  datatype Outcome = SpawnError | WaitError(canceled: bool) | Terminal(status: WorkerStatus)

  datatype Verdict = Success | Failure | Cancellation

  function Judge(o: Outcome, ctxDone: bool): Verdict {
    match o
    case SpawnError => Failure
    case WaitError(canceled) => if canceled || ctxDone then Cancellation else Failure
    case Terminal(status) =>
      if status.Completed? then Success else if status.Cancelled? then Cancellation else Failure
  }

  datatype Pc =
    | Looping                       // at the top of workerLoop
    | Dequeuing                     // inside Dequeue's select
    | Received(spec: WorkerSpec)    // taken from the channel, not yet recorded in flight
    | Starting(spec: WorkerSpec)    // recorded in flight, Spawned not yet counted
    | Driving(spec: WorkerSpec)     // between counting Spawned and counting the verdict
    | Acking(spec: WorkerSpec)      // Completed counted, Ack's section ahead
    | Nacking(spec: WorkerSpec)     // Failed or Cancelled counted, Nack's first section ahead
    | Dropping(spec: WorkerSpec)    // Nack has resolved to dead-letter
    | Releasing(spec: WorkerSpec)   // Nack has resolved to retry, delete from in-flight ahead
    | Resending(spec: WorkerSpec)   // holds the bumped spec, send ahead
    | Restoring(spec: WorkerSpec)   // ctx was done during the send, in-flight entry to be put back
    | Tallying(dropped: bool)       // Nack returned without error, recordNackResult ahead
    | Exited

  datatype Stats = Stats(spawned: int, completed: int, failed: int, cancelled: int, retries: int, dropped: int)

  /** An acceptance: its place among all, the attempt it began with, and the Spawn calls made for it. */
  datatype Life = Life(ticket: nat, first: int, spawns: nat)

  /**
   * What has happened so far: the specs accepted, in order; for each id its latest acceptance's place
   * there, first attempt and number of Spawn calls; the ids acked; for each dead letter its acceptance's figures; the
   * ids accepted when the queue was already closed, and when all workers had left; the Nacks that
   * returned ctx.Err(); the Acks and Nacks that met ErrUnknownSpec; the ids in use, that is waiting in
   * Enqueue or accepted and not settled, and whether an Enqueue ever began with one of them.
   */
  datatype History = History(
    accepted: seq<WorkerSpec>, ticket: map<Uuid, nat>, first: map<Uuid, int>, spawns: map<Uuid, nat>,
    acked: multiset<Uuid>, dead: seq<Life>,
    late: set<Uuid>, stranded: set<Uuid>, failedNacks: nat, unknown: nat, inUse: set<Uuid>, clash: bool)

  datatype System = System(
    q: Queue, workers: seq<Pc>, enqueuing: multiset<WorkerSpec>, ctxDone: bool, stats: Stats, log: History)

  datatype Step =
    | BeginEnqueue(spec: WorkerSpec)
    | FinishEnqueue(spec: WorkerSpec)
    | AbandonEnqueue(spec: WorkerSpec)
    | MarkClosed
    | SignalClosed
    | Stop
    | Work(worker: nat, act: Act)

  datatype Act = Poll | Take | QuitClosed | QuitCtx | RetryDequeue | Enter | CountSpawn
    | Finish(outcome: Outcome) | Acknowledge | Decide | Discard | Release | Resend | GiveUp | Restore | Tally

  predicate AllExited(s: System) {
    |s.workers| > 0 && forall i :: 0 <= i < |s.workers| ==> s.workers[i].Exited?
  }

  function Init(n: nat): System {
    System(EMPTY, seq(n, i => Looping), multiset{}, false, Stats(0, 0, 0, 0, 0, 0),
           History([], map[], map[], map[], multiset{}, [], {}, {}, 0, 0, {}, false))
  }

  // ------------------------------------------------------------------ steps

  predicate CanAct(cfg: Config, s: System, pc: Pc, act: Act) {
    match act
    case Poll => pc.Looping?
    case Take => pc.Dequeuing? && s.q.pending != []
    case QuitClosed => pc.Dequeuing? && s.q.closeSignalled && s.q.pending == []
    case QuitCtx => (pc.Looping? || pc.Dequeuing?) && s.ctxDone
    case RetryDequeue => pc.Dequeuing? && s.ctxDone
    case Enter => pc.Received?
    case CountSpawn => pc.Starting?
    case Finish(_) => pc.Driving?
    case Acknowledge => pc.Acking?
    case Decide => pc.Nacking?
    case Discard => pc.Dropping?
    case Release => pc.Releasing?
    case Resend => pc.Resending? && |s.q.pending| < cfg.bufferSize
    case GiveUp => pc.Resending? && s.ctxDone
    case Restore => pc.Restoring?
    case Tally => pc.Tallying?
  }

  predicate Enabled(cfg: Config, s: System, step: Step) {
    match step
    case BeginEnqueue(spec) => spec.Valid() && !s.q.closed
    case FinishEnqueue(spec) => spec in s.enqueuing && |s.q.pending| < cfg.bufferSize
    case AbandonEnqueue(spec) => spec in s.enqueuing
    case MarkClosed => !s.q.closed
    case SignalClosed => s.q.closed
    case Stop => true
    case Work(i, act) => i < |s.workers| && CanAct(cfg, s, s.workers[i], act)
  }

  function Goto(s: System, i: nat, pc: Pc): System
    requires i < |s.workers|
  {
    s.(workers := s.workers[i := pc])
  }

  function DoTake(s: System, i: nat): System
    requires i < |s.workers| && s.q.pending != []
  {
    Goto(s, i, Received(s.q.pending[0])).(q := DispatchQueue.Receive(s.q))
  }

  function DoEnter(s: System, i: nat): System
    requires i < |s.workers| && s.workers[i].Received?
  {
    Goto(s, i, Starting(s.workers[i].spec)).(q := Record(s.q, s.workers[i].spec))
  }

  function DoCountSpawn(s: System, i: nat): System
    requires i < |s.workers| && s.workers[i].Starting?
  {
    var spec, n := s.workers[i].spec, s.log.spawns;
    var id := spec.executionId;
    Goto(s, i, Driving(spec)).(
      stats := s.stats.(spawned := s.stats.spawned + 1),
      log := s.log.(spawns := n[id := if id in n then n[id] + 1 else 1]))
  }

  function DoFinish(s: System, i: nat, outcome: Outcome): System
    requires i < |s.workers| && s.workers[i].Driving?
  {
    var spec := s.workers[i].spec;
    match Judge(outcome, s.ctxDone)
    case Success => Goto(s, i, Acking(spec)).(stats := s.stats.(completed := s.stats.completed + 1))
    case Failure => Goto(s, i, Nacking(spec)).(stats := s.stats.(failed := s.stats.failed + 1))
    case Cancellation => Goto(s, i, Nacking(spec)).(stats := s.stats.(cancelled := s.stats.cancelled + 1))
  }

  function DoAcknowledge(s: System, i: nat): System
    requires i < |s.workers| && s.workers[i].Acking?
  {
    var spec, t := s.workers[i].spec, Goto(s, i, Looping);
    if spec.executionId in s.q.inFlight
    then t.(q := Forget(s.q, spec),
            log := s.log.(acked := s.log.acked + multiset{spec.executionId}, inUse := s.log.inUse - {spec.executionId}))
    else t.(log := s.log.(unknown := s.log.unknown + 1))
  }

  function DoDecide(cfg: Config, s: System, i: nat): System
    requires i < |s.workers| && s.workers[i].Nacking?
  {
    var spec := s.workers[i].spec;
    match Plan(s.q, cfg.maxAttempts, spec)
    case Unknown => Goto(s, i, Looping).(log := s.log.(unknown := s.log.unknown + 1))
    case Drop => Goto(s, i, Dropping(spec))
    case Requeue => Goto(s, i, Releasing(spec))
  }

  function LifeOf(log: History, id: Uuid): Life {
    Life(if id in log.ticket then log.ticket[id] else 0,
         if id in log.first then log.first[id] else 0,
         if id in log.spawns then log.spawns[id] else 0)
  }

  function DoDeadLetter(s: System, i: nat): System
    requires i < |s.workers| && s.workers[i].Dropping?
  {
    var spec := s.workers[i].spec;
    Goto(s, i, Tallying(true)).(
      q := DeadLetter(s.q, spec),
      log := s.log.(dead := s.log.dead + [LifeOf(s.log, spec.executionId)], inUse := s.log.inUse - {spec.executionId}))
  }

  function DoRelease(s: System, i: nat): System
    requires i < |s.workers| && s.workers[i].Releasing?
  {
    Goto(s, i, Resending(NextAttempt(s.workers[i].spec))).(q := Forget(s.q, s.workers[i].spec))
  }

  function DoResend(s: System, i: nat): System
    requires i < |s.workers| && s.workers[i].Resending?
  {
    Goto(s, i, Tallying(false)).(q := Send(s.q, s.workers[i].spec))
  }

  function DoRestore(s: System, i: nat): System
    requires i < |s.workers| && s.workers[i].Restoring?
  {
    Goto(s, i, Looping).(q := Record(s.q, s.workers[i].spec),
                         log := s.log.(failedNacks := s.log.failedNacks + 1))
  }

  function DoTally(s: System, i: nat): System
    requires i < |s.workers| && s.workers[i].Tallying?
  {
    Goto(s, i, Looping).(
      stats := if s.workers[i].dropped then s.stats.(dropped := s.stats.dropped + 1)
               else s.stats.(retries := s.stats.retries + 1))
  }

  function DoWork(cfg: Config, s: System, i: nat, act: Act): System
    requires i < |s.workers| && CanAct(cfg, s, s.workers[i], act)
  {
    match act
    case Poll => Goto(s, i, Dequeuing)
    case Take => DoTake(s, i)
    case QuitClosed => Goto(s, i, Exited)
    case QuitCtx => Goto(s, i, Exited)
    case RetryDequeue => Goto(s, i, Looping)
    case Enter => DoEnter(s, i)
    case CountSpawn => DoCountSpawn(s, i)
    case Finish(outcome) => DoFinish(s, i, outcome)
    case Acknowledge => DoAcknowledge(s, i)
    case Decide => DoDecide(cfg, s, i)
    case Discard => DoDeadLetter(s, i)
    case Release => DoRelease(s, i)
    case Resend => DoResend(s, i)
    case GiveUp => Goto(s, i, Restoring(s.workers[i].spec))
    case Restore => DoRestore(s, i)
    case Tally => DoTally(s, i)
  }

  function DoBegin(s: System, spec: WorkerSpec): System {
    s.(enqueuing := s.enqueuing + multiset{spec},
       log := s.log.(clash := s.log.clash || spec.executionId in s.log.inUse,
                     inUse := s.log.inUse + {spec.executionId}))
  }

  function DoAccept(s: System, spec: WorkerSpec): System {
    s.(q := Send(s.q, spec),
       enqueuing := s.enqueuing - multiset{spec},
       log := s.log.(accepted := s.log.accepted + [spec],
                     ticket := s.log.ticket[spec.executionId := |s.log.accepted|],
                     first := s.log.first[spec.executionId := spec.attempt],
                     spawns := s.log.spawns[spec.executionId := 0],
                     late := if s.q.closed then s.log.late + {spec.executionId} else s.log.late,
                     stranded := if AllExited(s) then s.log.stranded + {spec.executionId} else s.log.stranded))
  }

  /** ErrQueueFull, ErrQueueClosed or ctx.Err(): the producer may come again with the same spec. */
  function DoAbandon(s: System, spec: WorkerSpec): System {
    s.(enqueuing := s.enqueuing - multiset{spec}, log := s.log.(inUse := s.log.inUse - {spec.executionId}))
  }

  function Do(cfg: Config, s: System, step: Step): System
    requires Enabled(cfg, s, step)
  {
    match step
    case BeginEnqueue(spec) => DoBegin(s, spec)
    case FinishEnqueue(spec) => DoAccept(s, spec)
    case AbandonEnqueue(spec) => DoAbandon(s, spec)
    case MarkClosed => s.(q := s.q.(closed := true))
    case SignalClosed => s.(q := s.q.(closeSignalled := true))
    case Stop => s.(ctxDone := true)
    case Work(i, act) => DoWork(cfg, s, i, act)
  }

  /** The state after trying `steps` in order; a step that is not enabled changes nothing. */
  function Run(cfg: Config, s: System, steps: seq<Step>): System {
    if steps == [] then s
    else
      var before := Run(cfg, s, steps[..|steps| - 1]);
      var step := steps[|steps| - 1];
      if Enabled(cfg, before, step) then Do(cfg, before, step) else before
  }
}
