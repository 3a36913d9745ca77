/** How often a spec is spawned, and how much work is left. */
module DispatcherRetries {
  import opened Specs
  import opened DispatchQueue
  import opened Dispatcher
  import opened DispatcherSafety

  function Max(a: int, b: int): int {
    if a < b then b else a
  }

  /** The most Spawn calls a spec enqueued with attempt `a` can get. */
  function SpawnBound(cfg: Config, a: int): int {
    Max(1, cfg.maxAttempts - a + 1)
  }

  /** The Spawn calls made for `spec` are the attempts since its first, plus `extra` for the current one. */
  ghost predicate Known(cfg: Config, first: map<Uuid, int>, spawns: map<Uuid, nat>, spec: WorkerSpec, extra: int) {
    var id := spec.executionId;
    && id in first && id in spawns
    && spawns[id] == spec.attempt - first[id] + extra
    && first[id] <= spec.attempt <= Max(first[id], cfg.maxAttempts)
  }

  /** What worker `pc` knows about the attempt it carries. */
  ghost predicate Standing(cfg: Config, first: map<Uuid, int>, spawns: map<Uuid, nat>, closed: bool, pc: Pc) {
    && (Holds(pc) || pc.Starting? ==> Known(cfg, first, spawns, pc.spec, 0))
    && (Owns(pc) && !pc.Starting? ==> Known(cfg, first, spawns, pc.spec, 1))
    && (pc.Releasing? ==> pc.spec.attempt < cfg.maxAttempts)
    && (pc.Dropping? ==> closed || pc.spec.attempt >= cfg.maxAttempts)
  }

  /** A dead-lettered spec had no attempts left, or met a closed queue. */
  predicate Buried(cfg: Config, life: Life, closed: bool, spec: WorkerSpec) {
    && life.spawns == spec.attempt - life.first + 1 && life.first <= spec.attempt <= Max(life.first, cfg.maxAttempts)
    && (closed || spec.attempt >= cfg.maxAttempts)
  }

  ghost predicate Laid(cfg: Config, dead: seq<Life>, closed: bool, dlq: seq<WorkerSpec>) {
    |dead| == |dlq| && forall k :: 0 <= k < |dlq| ==> Buried(cfg, dead[k], closed, dlq[k])
  }

  ghost predicate AttemptsTallied(cfg: Config, s: System) {
    && (forall id :: id in s.log.first ==> id in s.log.spawns && s.log.spawns[id] <= SpawnBound(cfg, s.log.first[id]))
    && (forall k :: 0 <= k < |s.q.pending| ==> Known(cfg, s.log.first, s.log.spawns, s.q.pending[k], 0))
    && (forall i :: 0 <= i < |s.workers| ==> Standing(cfg, s.log.first, s.log.spawns, s.q.closed, s.workers[i]))
    && Laid(cfg, s.log.dead, s.q.closed, s.q.dlq)
  }

  lemma {:induction false} OccursSome(specs: seq<WorkerSpec>, k: nat)
    requires k < |specs|
    ensures Occurs(specs, specs[k].executionId) >= 1
  {
    OccursNonNegative(specs[1..], specs[k].executionId);
    if k != 0 {
      OccursSome(specs[1..], k - 1);
      assert specs[k] == specs[1..][k - 1];
    }
  }

  /** The id of a spec in a worker's charge is neither pending nor with another worker. */
  lemma OwnedIsAlone(cfg: Config, s: System, i: nat)
    requires Safe(cfg, s) && i < |s.workers| && Owns(s.workers[i])
    ensures var id := s.workers[i].spec.executionId;
      && (forall k :: 0 <= k < |s.q.pending| ==> s.q.pending[k].executionId != id)
      && (forall j :: 0 <= j < |s.workers| && j != i && (Holds(s.workers[j]) || Owns(s.workers[j]))
            ==> s.workers[j].spec.executionId != id)
  {
    var id := s.workers[i].spec.executionId;
    assert Here(s, id) <= 1;
    HeldOrPending(s, id);
  }

  /** Without `id` in the channel or in a hand no spec there has it. */
  lemma HeldOrPending(s: System, id: Uuid)
    ensures Occurs(s.q.pending, id) >= 0 && Hands(s.workers, id) >= 0
    ensures Occurs(s.q.pending, id) == 0 ==> forall k :: 0 <= k < |s.q.pending| ==> s.q.pending[k].executionId != id
    ensures Hands(s.workers, id) == 0 ==>
      forall j :: 0 <= j < |s.workers| && Holds(s.workers[j]) ==> s.workers[j].spec.executionId != id
  {
    HandsNonNegative(s.workers, id);
    OccursNonNegative(s.q.pending, id);
    forall k | 0 <= k < |s.q.pending| && Occurs(s.q.pending, id) == 0
      ensures s.q.pending[k].executionId != id
    {
      OccursSome(s.q.pending, k);
    }
    forall j | 0 <= j < |s.workers| && Holds(s.workers[j]) && Hands(s.workers, id) == 0
      ensures s.workers[j].spec.executionId != id
    {
      HandsAtLeast(s.workers, j, id);
    }
  }

  /** The id of a waiting spec is nowhere else. */
  lemma WaitingIsAlone(cfg: Config, s: System, spec: WorkerSpec)
    requires Safe(cfg, s) && spec in s.enqueuing
    ensures var id := spec.executionId;
      && (forall k :: 0 <= k < |s.q.pending| ==> s.q.pending[k].executionId != id)
      && (forall j :: 0 <= j < |s.workers| && (Holds(s.workers[j]) || Owns(s.workers[j])) ==>
           s.workers[j].spec.executionId != id)
  {
    var id := spec.executionId;
    assert Here(s, id) == 0;
    HeldOrPending(s, id);
  }

  lemma CountSpawnRetried(cfg: Config, s: System, i: nat)
    requires Safe(cfg, s) && AttemptsTallied(cfg, s) && i < |s.workers| && s.workers[i].Starting?
    ensures AttemptsTallied(cfg, DoCountSpawn(s, i))
  {
    OwnedIsAlone(cfg, s, i);
    var t := DoCountSpawn(s, i);
    assert Standing(cfg, s.log.first, s.log.spawns, s.q.closed, s.workers[i]);
    forall j | 0 <= j < |t.workers|
      ensures Standing(cfg, t.log.first, t.log.spawns, t.q.closed, t.workers[j])
    {
      assert Standing(cfg, s.log.first, s.log.spawns, s.q.closed, s.workers[j]);
    }
  }

  /** Facts about other ids outlive a change to one id's entries. */
  lemma KnownElsewhere(cfg: Config, s: System, t: System, id: Uuid)
    requires t.log.first - {id} == s.log.first - {id} && t.log.spawns - {id} == s.log.spawns - {id}
    requires t.q.closed == s.q.closed
    ensures forall spec: WorkerSpec, extra ::
      spec.executionId != id && Known(cfg, s.log.first, s.log.spawns, spec, extra) ==>
        Known(cfg, t.log.first, t.log.spawns, spec, extra)
  {
    forall spec: WorkerSpec, extra | spec.executionId != id && Known(cfg, s.log.first, s.log.spawns, spec, extra)
      ensures Known(cfg, t.log.first, t.log.spawns, spec, extra)
    {
      assert spec.executionId in t.log.first - {id} && spec.executionId in t.log.spawns - {id};
      assert (t.log.first - {id})[spec.executionId] == (s.log.first - {id})[spec.executionId];
      assert (t.log.spawns - {id})[spec.executionId] == (s.log.spawns - {id})[spec.executionId];
    }
  }

  lemma StandingElsewhere(cfg: Config, s: System, t: System, id: Uuid, pc: Pc)
    requires t.log.first - {id} == s.log.first - {id} && t.log.spawns - {id} == s.log.spawns - {id}
    requires t.q.closed == s.q.closed && (Holds(pc) || Owns(pc) ==> pc.spec.executionId != id)
    requires Standing(cfg, s.log.first, s.log.spawns, s.q.closed, pc)
    ensures Standing(cfg, t.log.first, t.log.spawns, t.q.closed, pc)
  {
    KnownElsewhere(cfg, s, t, id);
  }

  lemma AcceptRetried(cfg: Config, s: System, spec: WorkerSpec)
    requires Safe(cfg, s) && AttemptsTallied(cfg, s) && spec in s.enqueuing
    ensures AttemptsTallied(cfg, DoAccept(s, spec))
  {
    hide Safe, Standing, Known, Laid, AllExited;
    var t, id := DoAccept(s, spec), spec.executionId;
    assert t.log.first - {id} == s.log.first - {id} && t.log.spawns - {id} == s.log.spawns - {id};
    WaitingIsAlone(cfg, s, spec);
    forall k | 0 <= k < |t.q.pending|
      ensures Known(cfg, t.log.first, t.log.spawns, t.q.pending[k], 0)
    {
      if k < |s.q.pending| {
        KnownElsewhere(cfg, s, t, id);
      } else {
        AcceptedIsKnown(cfg, s, spec);
      }
    }
    forall j | 0 <= j < |t.workers|
      ensures Standing(cfg, t.log.first, t.log.spawns, t.q.closed, t.workers[j])
    {
      StandingElsewhere(cfg, s, t, id, s.workers[j]);
    }
  }

  lemma AcceptedIsKnown(cfg: Config, s: System, spec: WorkerSpec)
    ensures Known(cfg, DoAccept(s, spec).log.first, DoAccept(s, spec).log.spawns, spec, 0)
  {
  }

  /** A step of worker i that starts no Spawn: the new places hold specs already known. */
  lemma OtherRetried(cfg: Config, s: System, t: System, i: nat)
    requires AttemptsTallied(cfg, s) && i < |s.workers| == |t.workers| && t.workers == s.workers[i := t.workers[i]]
    requires t.log.first == s.log.first && t.log.spawns == s.log.spawns && t.q.closed == s.q.closed
    requires Standing(cfg, t.log.first, t.log.spawns, t.q.closed, t.workers[i])
    requires forall p :: p in t.q.pending ==> p in s.q.pending || Known(cfg, t.log.first, t.log.spawns, p, 0)
    requires Laid(cfg, t.log.dead, t.q.closed, t.q.dlq)
    ensures AttemptsTallied(cfg, t)
  {
    forall k | 0 <= k < |t.q.pending|
      ensures Known(cfg, t.log.first, t.log.spawns, t.q.pending[k], 0)
    {
      assert t.q.pending[k] in t.q.pending;
    }
  }

  lemma TakeRetried(cfg: Config, s: System, i: nat)
    requires AttemptsTallied(cfg, s) && i < |s.workers| && s.workers[i].Dequeuing? && s.q.pending != []
    ensures AttemptsTallied(cfg, DoTake(s, i))
  {
    assert Standing(cfg, s.log.first, s.log.spawns, s.q.closed, s.workers[i]);
    OtherRetried(cfg, s, DoTake(s, i), i);
  }

  lemma FinishRetried(cfg: Config, s: System, i: nat, outcome: Outcome)
    requires AttemptsTallied(cfg, s) && i < |s.workers| && s.workers[i].Driving?
    ensures AttemptsTallied(cfg, DoFinish(s, i, outcome))
  {
    assert Standing(cfg, s.log.first, s.log.spawns, s.q.closed, s.workers[i]);
    OtherRetried(cfg, s, DoFinish(s, i, outcome), i);
  }

  lemma DeadLetterRetried(cfg: Config, s: System, i: nat)
    requires AttemptsTallied(cfg, s) && i < |s.workers| && s.workers[i].Dropping?
    ensures AttemptsTallied(cfg, DoDeadLetter(s, i))
  {
    assert Standing(cfg, s.log.first, s.log.spawns, s.q.closed, s.workers[i]);
    OtherRetried(cfg, s, DoDeadLetter(s, i), i);
  }

  lemma ReleaseRetried(cfg: Config, s: System, i: nat)
    requires AttemptsTallied(cfg, s) && i < |s.workers| && s.workers[i].Releasing?
    ensures AttemptsTallied(cfg, DoRelease(s, i))
  {
    assert Standing(cfg, s.log.first, s.log.spawns, s.q.closed, s.workers[i]);
    OtherRetried(cfg, s, DoRelease(s, i), i);
  }

  lemma ResendRetried(cfg: Config, s: System, i: nat)
    requires AttemptsTallied(cfg, s) && i < |s.workers| && s.workers[i].Resending?
    ensures AttemptsTallied(cfg, DoResend(s, i))
  {
    assert Standing(cfg, s.log.first, s.log.spawns, s.q.closed, s.workers[i]);
    OtherRetried(cfg, s, DoResend(s, i), i);
  }

  lemma DecideRetried(cfg: Config, s: System, i: nat)
    requires AttemptsTallied(cfg, s) && i < |s.workers| && s.workers[i].Nacking?
    ensures AttemptsTallied(cfg, DoDecide(cfg, s, i))
  {
    assert Standing(cfg, s.log.first, s.log.spawns, s.q.closed, s.workers[i]);
    OtherRetried(cfg, s, DoDecide(cfg, s, i), i);
  }

  /** Steps that keep the channel and the dead letters, and whose worker carries the same spec unspawned, or none. */
  ghost predicate Plain(s: System, t: System, i: nat)
    requires i < |s.workers|
  {
    && |t.workers| == |s.workers| && t.workers == s.workers[i := t.workers[i]]
    && t.log.first == s.log.first && t.log.spawns == s.log.spawns
    && t.q.closed == s.q.closed && t.q.pending == s.q.pending && t.q.dlq == s.q.dlq && t.log.dead == s.log.dead
    && (Owns(t.workers[i]) ==> t.workers[i].Starting?)
    && (Holds(t.workers[i]) || Owns(t.workers[i]) ==> Holds(s.workers[i]) && t.workers[i].spec == s.workers[i].spec)
  }

  lemma PlainRetried(cfg: Config, s: System, t: System, i: nat)
    requires AttemptsTallied(cfg, s) && i < |s.workers| && Plain(s, t, i)
    ensures AttemptsTallied(cfg, t)
  {
    assert Standing(cfg, s.log.first, s.log.spawns, s.q.closed, s.workers[i]);
    OtherRetried(cfg, s, t, i);
  }

  lemma WorkRetried(cfg: Config, s: System, i: nat, act: Act)
    requires Safe(cfg, s) && AttemptsTallied(cfg, s) && Enabled(cfg, s, Work(i, act))
    ensures AttemptsTallied(cfg, DoWork(cfg, s, i, act))
  {
    hide Safe, AttemptsTallied;
    match act
    case CountSpawn => CountSpawnRetried(cfg, s, i);
    case Take => TakeRetried(cfg, s, i);
    case Finish(outcome) => FinishRetried(cfg, s, i, outcome);
    case Decide => DecideRetried(cfg, s, i);
    case Discard => DeadLetterRetried(cfg, s, i);
    case Release => ReleaseRetried(cfg, s, i);
    case Resend => ResendRetried(cfg, s, i);
    case _ => PlainRetried(cfg, s, DoWork(cfg, s, i, act), i);
  }

  lemma StepRetried(cfg: Config, s: System, step: Step)
    requires Safe(cfg, s) && AttemptsTallied(cfg, s) && Enabled(cfg, s, step)
    ensures AttemptsTallied(cfg, Do(cfg, s, step))
  {
    match step
    case Work(i, act) => WorkRetried(cfg, s, i, act);
    case FinishEnqueue(spec) => AcceptRetried(cfg, s, spec);
    case _ =>
  }

  // ------------------------------------------------------------------ the work that is left

  /** The attempts a spec may still be given, counting the present one. */
  function Attempts(cfg: Config, spec: WorkerSpec): int {
    Max(cfg.maxAttempts - spec.attempt, 0) + 1
  }

  function Pile(cfg: Config, specs: seq<WorkerSpec>): int {
    if specs == [] then 0 else Attempts(cfg, specs[0]) + Pile(cfg, specs[1..])
  }

  function Weight(cfg: Config, pc: Pc): int {
    if Holds(pc) || Owns(pc) then Attempts(cfg, pc.spec) else 0
  }

  function Load(cfg: Config, workers: seq<Pc>): int {
    if workers == [] then 0 else Weight(cfg, workers[0]) + Load(cfg, workers[1..])
  }

  /** Attempts left over every spec that is pending or in a worker's charge. */
  function Left(cfg: Config, s: System): int {
    Pile(cfg, s.q.pending) + Load(cfg, s.workers)
  }

  lemma {:induction false} PileAppend(cfg: Config, specs: seq<WorkerSpec>, spec: WorkerSpec)
    ensures Pile(cfg, specs + [spec]) == Pile(cfg, specs) + Attempts(cfg, spec)
  {
    if specs == [] {
    } else {
      assert (specs + [spec])[1..] == specs[1..] + [spec];
      PileAppend(cfg, specs[1..], spec);
    }
  }

  lemma {:induction false} LoadUpdate(cfg: Config, workers: seq<Pc>, i: nat, pc: Pc)
    requires i < |workers|
    ensures Load(cfg, workers[i := pc]) == Load(cfg, workers) - Weight(cfg, workers[i]) + Weight(cfg, pc)
  {
    if i == 0 {
      assert workers[i := pc][1..] == workers[1..];
    } else {
      assert workers[i := pc][1..] == workers[1..][i - 1 := pc];
      LoadUpdate(cfg, workers[1..], i - 1, pc);
    }
  }

  lemma {:induction specs} PileNonNegative(cfg: Config, specs: seq<WorkerSpec>)
    ensures Pile(cfg, specs) >= 0
  {
  }

  lemma {:induction workers} LoadNonNegative(cfg: Config, workers: seq<Pc>)
    ensures Load(cfg, workers) >= 0
  {
  }

  /** An Ack, a drop, a retry taken out of flight, and a Nack abandoned on ctx each finish something. */
  predicate Settles(act: Act) {
    act.Acknowledge? || act.Discard? || act.Release? || act.Restore?
  }

  /** Attempts that a step of a worker at `pc` uses up. */
  function Cost(cfg: Config, pc: Pc, act: Act): int {
    match act
    case Acknowledge => Weight(cfg, pc)
    case Discard => Weight(cfg, pc)
    case Release => 1
    case Restore => Weight(cfg, pc)
    case _ => 0
  }

  /** Worker i carries an attempt Nack may retry, and one that Nack and Ack will find in flight. */
  ghost predicate Ready(cfg: Config, s: System, i: nat)
    requires i < |s.workers|
  {
    && (s.workers[i].Releasing? ==> s.workers[i].spec.attempt < cfg.maxAttempts)
    && (Owns(s.workers[i]) ==> s.workers[i].spec.executionId in s.q.inFlight)
  }

  /** The worker's weight and the channel after a step that neither takes nor resends. */
  ghost predicate Lightened(cfg: Config, s: System, t: System, i: nat, cost: int)
    requires i < |s.workers|
  {
    && t.q.pending == s.q.pending && |t.workers| == |s.workers| && t.workers == s.workers[i := t.workers[i]]
    && Weight(cfg, t.workers[i]) == Weight(cfg, s.workers[i]) - cost
  }

  lemma FinishLightens(cfg: Config, s: System, i: nat, outcome: Outcome)
    requires i < |s.workers| && s.workers[i].Driving?
    ensures Lightened(cfg, s, DoFinish(s, i, outcome), i, 0)
  {
  }

  lemma DecideLightens(cfg: Config, s: System, i: nat)
    requires i < |s.workers| && Ready(cfg, s, i) && s.workers[i].Nacking?
    ensures Lightened(cfg, s, DoDecide(cfg, s, i), i, 0)
  {
  }

  lemma WorkLightens(cfg: Config, s: System, i: nat, act: Act)
    requires Enabled(cfg, s, Work(i, act)) && Ready(cfg, s, i) && !act.Take? && !act.Resend?
    ensures Lightened(cfg, s, DoWork(cfg, s, i, act), i, Cost(cfg, s.workers[i], act))
  {
    match act
    case Enter => assert Lightened(cfg, s, DoEnter(s, i), i, 0);
    case CountSpawn => assert Lightened(cfg, s, DoCountSpawn(s, i), i, 0);
    case Finish(outcome) => FinishLightens(cfg, s, i, outcome);
    case Decide => DecideLightens(cfg, s, i);
    case Release => assert Lightened(cfg, s, DoRelease(s, i), i, 1);
    case _ =>
  }

  lemma LightFalls(cfg: Config, s: System, t: System, i: nat, cost: int)
    requires i < |s.workers| && Lightened(cfg, s, t, i, cost)
    ensures Left(cfg, t) == Left(cfg, s) - cost
  {
    LoadUpdate(cfg, s.workers, i, t.workers[i]);
  }

  lemma TakeKeepsLoad(cfg: Config, s: System, i: nat)
    requires i < |s.workers| && s.workers[i].Dequeuing? && s.q.pending != []
    ensures Left(cfg, DoTake(s, i)) == Left(cfg, s)
  {
    LoadUpdate(cfg, s.workers, i, Received(s.q.pending[0]));
  }

  lemma ResendKeepsLoad(cfg: Config, s: System, i: nat)
    requires i < |s.workers| && s.workers[i].Resending?
    ensures Left(cfg, DoResend(s, i)) == Left(cfg, s)
  {
    LoadUpdate(cfg, s.workers, i, Tallying(false));
    PileAppend(cfg, s.q.pending, s.workers[i].spec);
  }

  lemma CostOfSettling(cfg: Config, s: System, i: nat, act: Act)
    requires Enabled(cfg, s, Work(i, act))
    ensures if Settles(act) then Cost(cfg, s.workers[i], act) >= 1 else Cost(cfg, s.workers[i], act) == 0
  {
  }

  lemma WorkFalls(cfg: Config, s: System, i: nat, act: Act)
    requires Owned(s) && AttemptsTallied(cfg, s) && Enabled(cfg, s, Work(i, act))
    ensures Left(cfg, DoWork(cfg, s, i, act)) == Left(cfg, s) - Cost(cfg, s.workers[i], act)
    ensures Settles(act) <==> Left(cfg, DoWork(cfg, s, i, act)) < Left(cfg, s)
  {
    assert Ready(cfg, s, i) by {
      assert Standing(cfg, s.log.first, s.log.spawns, s.q.closed, s.workers[i]);
    }
    hide Owned, AttemptsTallied, Ready, Cost;
    CostOfSettling(cfg, s, i, act);
    if act.Take? {
      assert DoWork(cfg, s, i, act) == DoTake(s, i);
      TakeKeepsLoad(cfg, s, i);
    } else if act.Resend? {
      assert DoWork(cfg, s, i, act) == DoResend(s, i);
      ResendKeepsLoad(cfg, s, i);
    } else {
      WorkLightens(cfg, s, i, act);
      LightFalls(cfg, s, DoWork(cfg, s, i, act), i, Cost(cfg, s.workers[i], act));
    }
  }
}
