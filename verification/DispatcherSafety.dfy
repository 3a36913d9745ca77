/** What every step of module Dispatcher keeps, and what that gives for every run. */
module DispatcherSafety {
  import opened Specs
  import opened DispatchQueue
  import opened Dispatcher

  // ------------------------------------------------------------------ where a spec can be

  function Is(spec: WorkerSpec, id: Uuid): int {
    if spec.executionId == id then 1 else 0
  }

  /** How often `id` occurs among `specs`. */
  function Occurs(specs: seq<WorkerSpec>, id: Uuid): int {
    if specs == [] then 0 else Is(specs[0], id) + Occurs(specs[1..], id)
  }

  /** The worker holds its spec outside the queue's own structures. */
  predicate Holds(pc: Pc) {
    pc.Received? || pc.Resending? || pc.Restoring?
  }

  /** The worker is between recording a spec in flight and settling it. */
  predicate Owns(pc: Pc) {
    pc.Starting? || pc.Driving? || pc.Acking? || pc.Nacking? || pc.Dropping? || pc.Releasing?
  }

  function Hand(pc: Pc, id: Uuid): int {
    if Holds(pc) then Is(pc.spec, id) else 0
  }

  function Hands(workers: seq<Pc>, id: Uuid): int {
    if workers == [] then 0 else Hand(workers[0], id) + Hands(workers[1..], id)
  }

  function Member(ids: set<Uuid>, id: Uuid): int {
    if id in ids then 1 else 0
  }

  /** How often `id` is unsettled: in the channel, in a worker's hand, in the in-flight map. */
  function Here(s: System, id: Uuid): int {
    Occurs(s.q.pending, id) + Hands(s.workers, id) + Member(s.q.inFlight.Keys, id)
  }

  /** How often `id` is anywhere: unsettled, acked, dead-lettered. */
  function Places(s: System, id: Uuid): int {
    Here(s, id) + s.log.acked[id] + Occurs(s.q.dlq, id)
  }

  lemma {:induction false} OccursAppend(specs: seq<WorkerSpec>, spec: WorkerSpec, id: Uuid)
    ensures Occurs(specs + [spec], id) == Occurs(specs, id) + Is(spec, id)
  {
    if specs == [] {
    } else {
      assert (specs + [spec])[1..] == specs[1..] + [spec];
      OccursAppend(specs[1..], spec, id);
    }
  }

  lemma {:induction false} HandsUpdate(workers: seq<Pc>, i: nat, pc: Pc, id: Uuid)
    requires i < |workers|
    ensures Hands(workers[i := pc], id) == Hands(workers, id) - Hand(workers[i], id) + Hand(pc, id)
  {
    if i == 0 {
      assert workers[i := pc][1..] == workers[1..];
    } else {
      assert workers[i := pc][1..] == workers[1..][i - 1 := pc];
      HandsUpdate(workers[1..], i - 1, pc, id);
    }
  }

  lemma {:induction false} HandsAtLeast(workers: seq<Pc>, i: nat, id: Uuid)
    requires i < |workers|
    ensures Hands(workers, id) >= Hand(workers[i], id)
  {
    HandsNonNegative(workers[1..], id);
    if i != 0 {
      HandsAtLeast(workers[1..], i - 1, id);
    }
  }

  lemma {:induction workers} HandsNonNegative(workers: seq<Pc>, id: Uuid)
    ensures Hands(workers, id) >= 0
  {
  }

  lemma {:induction specs} OccursNonNegative(specs: seq<WorkerSpec>, id: Uuid)
    ensures Occurs(specs, id) >= 0
  {
  }

  // ------------------------------------------------------------------ the invariant

  ghost predicate Conserved(cfg: Config, s: System) {
    && (forall id :: Places(s, id) == Occurs(s.log.accepted, id))
    && (forall id :: Here(s, id) <= 1)
    && (forall k :: Latest(s.log.accepted, k) ==>
        var spec := s.log.accepted[k];
        spec.executionId in s.log.first && s.log.first[spec.executionId] == spec.attempt)
    && |s.q.pending| <= cfg.bufferSize
    && s.q.dropped == |s.q.dlq|
  }

  /** No later spec has the id of specs[k]. */
  ghost predicate Latest(specs: seq<WorkerSpec>, k: int) {
    0 <= k < |specs| && forall j :: k < j < |specs| ==> specs[j].executionId != specs[k].executionId
  }

  ghost predicate Waiting(s: System, id: Uuid) {
    exists e :: e in s.enqueuing && e.executionId == id
  }

  ghost predicate Fresh(s: System) {
    && (forall id :: id in s.log.inUse <==> Here(s, id) > 0 || Waiting(s, id))
    && (forall e :: e in s.enqueuing ==>
        Here(s, e.executionId) == 0 && s.enqueuing[e] == 1)
    && (forall e, f :: e in s.enqueuing && f in s.enqueuing && e.executionId == f.executionId ==> e == f)
  }

  ghost predicate Owned(s: System) {
    && (forall id :: id in s.q.inFlight ==> s.q.inFlight[id].executionId == id)
    && (forall i :: 0 <= i < |s.workers| && Owns(s.workers[i]) ==>
        var spec := s.workers[i].spec;
        spec.executionId in s.q.inFlight && s.q.inFlight[spec.executionId] == spec)
    && (forall i, j :: 0 <= i < j < |s.workers| && Owns(s.workers[i]) && Owns(s.workers[j]) ==>
        s.workers[i].spec.executionId != s.workers[j].spec.executionId)
    && s.log.unknown == 0
  }

  ghost predicate Safe(cfg: Config, s: System) {
    Conserved(cfg, s) && Fresh(s) && Owned(s)
  }

  lemma HereNonNegative(s: System, id: Uuid)
    ensures Here(s, id) >= 0
  {
    OccursNonNegative(s.q.pending, id);
    HandsNonNegative(s.workers, id);
  }

  lemma HandIsElsewhere(cfg: Config, s: System, i: nat)
    requires Conserved(cfg, s) && i < |s.workers| && Holds(s.workers[i])
    ensures s.workers[i].spec.executionId !in s.q.inFlight
  {
    var id := s.workers[i].spec.executionId;
    HandsAtLeast(s.workers, i, id);
    OccursNonNegative(s.q.pending, id);
    assert Here(s, id) <= 1;
  }

  /** The unsettled places of `id` when only worker i's hand is counted. */
  function HereAt(s: System, i: nat, id: Uuid): int
    requires i < |s.workers|
  {
    Occurs(s.q.pending, id) + Hand(s.workers[i], id) + Member(s.q.inFlight.Keys, id)
  }

  /** Worker i moves at most one unsettled spec from a place to another, or settles it. */
  ghost predicate Moved(s: System, t: System, i: nat)
    requires i < |s.workers| == |t.workers|
  {
    && t.workers == s.workers[i := t.workers[i]] && t.enqueuing == s.enqueuing
    && t.log.first == s.log.first && t.log.accepted == s.log.accepted
    && forall id :: MovedId(s, t, i, id)
  }

  ghost predicate MovedId(s: System, t: System, i: nat, id: Uuid)
    requires i < |s.workers| == |t.workers|
  {
    && HereAt(t, i, id) + t.log.acked[id] + Occurs(t.q.dlq, id)
         == HereAt(s, i, id) + s.log.acked[id] + Occurs(s.q.dlq, id)
    && HereAt(t, i, id) <= HereAt(s, i, id)
    && (id in t.log.inUse <==> id in s.log.inUse && HereAt(t, i, id) == HereAt(s, i, id))
  }

  lemma MovedHere(s: System, t: System, i: nat, id: Uuid)
    requires i < |s.workers| == |t.workers| && Moved(s, t, i)
    ensures 0 <= Here(t, id) <= Here(s, id) && Places(t, id) == Places(s, id)
    ensures id in t.log.inUse <==> id in s.log.inUse && Here(t, id) == Here(s, id)
  {
    HereNonNegative(t, id);
    HandsUpdate(s.workers, i, t.workers[i], id);
    assert MovedId(s, t, i, id);
  }

  lemma MovedKeeps(cfg: Config, s: System, t: System, i: nat)
    requires Conserved(cfg, s) && Fresh(s)
    requires i < |s.workers| == |t.workers| && Moved(s, t, i)
    requires |t.q.pending| <= cfg.bufferSize && t.q.dropped == |t.q.dlq|
    ensures Conserved(cfg, t) && Fresh(t)
  {
    hide Here, Places, Occurs, Latest, MovedId;
    forall id
      ensures 0 <= Here(t, id) <= Here(s, id) <= 1 && Places(t, id) == Places(s, id) == Occurs(s.log.accepted, id)
      ensures id in t.log.inUse <==> id in s.log.inUse && Here(t, id) == Here(s, id)
      ensures Waiting(t, id) <==> Waiting(s, id)
    {
      MovedHere(s, t, i, id);
    }
  }

  // ------------------------------------------------------------------ the workers' steps

  /** Worker i settles the spec it owned. */
  lemma SettledOwned(s: System, t: System, i: nat)
    requires Owned(s) && i < |s.workers| == |t.workers| && Owns(s.workers[i]) && !Owns(t.workers[i])
    requires t.workers == s.workers[i := t.workers[i]] && t.log.unknown == 0
    requires t.q.inFlight == s.q.inFlight - {s.workers[i].spec.executionId}
    ensures Owned(t)
  {
  }

  /** Worker i records the spec it held. */
  lemma RecordedOwned(s: System, t: System, i: nat, spec: WorkerSpec)
    requires Owned(s) && i < |s.workers| == |t.workers| && spec.executionId !in s.q.inFlight
    requires t.workers == s.workers[i := t.workers[i]] && t.log.unknown == 0
    requires t.q.inFlight == s.q.inFlight[spec.executionId := spec]
    requires Owns(t.workers[i]) ==> t.workers[i].spec == spec
    ensures Owned(t)
  {
  }

  /** Nothing in flight changes, and worker i owns nothing afterwards. */
  lemma UnchangedOwned(s: System, t: System, i: nat)
    requires Owned(s) && i < |s.workers| == |t.workers| && !Owns(t.workers[i])
    requires t.workers == s.workers[i := t.workers[i]] && t.log.unknown == 0 && t.q.inFlight == s.q.inFlight
    ensures Owned(t)
  {
  }

  lemma TakeKeeps(cfg: Config, s: System, i: nat)
    requires Safe(cfg, s) && i < |s.workers| && s.workers[i].Dequeuing? && s.q.pending != []
    ensures Safe(cfg, DoTake(s, i))
  {
    var t := DoTake(s, i);
    assert Moved(s, t, i);
    MovedKeeps(cfg, s, t, i);
    UnchangedOwned(s, t, i);
    hide Owned, Moved, MovedId, Conserved, Fresh;
  }

  lemma EnterKeeps(cfg: Config, s: System, i: nat)
    requires Safe(cfg, s) && i < |s.workers| && s.workers[i].Received?
    ensures Safe(cfg, DoEnter(s, i))
  {
    var t := DoEnter(s, i);
    HandIsElsewhere(cfg, s, i);
    assert Moved(s, t, i);
    MovedKeeps(cfg, s, t, i);
    RecordedOwned(s, t, i, s.workers[i].spec);
    hide Owned, Moved, MovedId, Conserved, Fresh;
  }

  lemma AcknowledgeMoves(s: System, i: nat)
    requires Owned(s) && i < |s.workers| && s.workers[i].Acking?
    ensures Moved(s, DoAcknowledge(s, i), i)
  {
  }

  lemma AcknowledgeKeeps(cfg: Config, s: System, i: nat)
    requires Safe(cfg, s) && i < |s.workers| && s.workers[i].Acking?
    ensures Safe(cfg, DoAcknowledge(s, i))
  {
    hide Moved, Conserved, Fresh;
    AcknowledgeMoves(s, i);
    SameSize(cfg, s);
    MovedKeeps(cfg, s, DoAcknowledge(s, i), i);
    SettledOwned(s, DoAcknowledge(s, i), i);
  }

  lemma DeadLetterMoves(s: System, i: nat)
    requires Owned(s) && i < |s.workers| && s.workers[i].Dropping?
    ensures Moved(s, DoDeadLetter(s, i), i)
  {
    forall id
      ensures MovedId(s, DoDeadLetter(s, i), i, id)
    {
      OccursAppend(s.q.dlq, s.workers[i].spec, id);
    }
  }

  lemma DeadLetterKeeps(cfg: Config, s: System, i: nat)
    requires Safe(cfg, s) && i < |s.workers| && s.workers[i].Dropping?
    ensures Safe(cfg, DoDeadLetter(s, i))
  {
    hide Moved, Conserved, Fresh;
    DeadLetterMoves(s, i);
    SameSize(cfg, s);
    MovedKeeps(cfg, s, DoDeadLetter(s, i), i);
    SettledOwned(s, DoDeadLetter(s, i), i);
  }

  lemma ReleaseMoves(s: System, i: nat)
    requires Owned(s) && i < |s.workers| && s.workers[i].Releasing?
    ensures Moved(s, DoRelease(s, i), i)
  {
  }

  lemma ReleaseKeeps(cfg: Config, s: System, i: nat)
    requires Safe(cfg, s) && i < |s.workers| && s.workers[i].Releasing?
    ensures Safe(cfg, DoRelease(s, i))
  {
    hide Moved, Conserved, Fresh;
    ReleaseMoves(s, i);
    SameSize(cfg, s);
    MovedKeeps(cfg, s, DoRelease(s, i), i);
    SettledOwned(s, DoRelease(s, i), i);
  }

  lemma SameSize(cfg: Config, s: System)
    requires Conserved(cfg, s)
    ensures |s.q.pending| <= cfg.bufferSize && s.q.dropped == |s.q.dlq|
  {
  }

  lemma ResendKeeps(cfg: Config, s: System, i: nat)
    requires Safe(cfg, s) && i < |s.workers| && s.workers[i].Resending? && |s.q.pending| < cfg.bufferSize
    ensures Safe(cfg, DoResend(s, i))
  {
    var t := DoResend(s, i);
    forall id
      ensures MovedId(s, t, i, id)
    {
      OccursAppend(s.q.pending, s.workers[i].spec, id);
    }
    MovedKeeps(cfg, s, t, i);
    UnchangedOwned(s, t, i);
  }

  lemma RestoreKeeps(cfg: Config, s: System, i: nat)
    requires Safe(cfg, s) && i < |s.workers| && s.workers[i].Restoring?
    ensures Safe(cfg, DoRestore(s, i))
  {
    var t := DoRestore(s, i);
    HandIsElsewhere(cfg, s, i);
    assert Moved(s, t, i);
    MovedKeeps(cfg, s, t, i);
    RecordedOwned(s, t, i, s.workers[i].spec);
    hide Owned, Moved, MovedId, Conserved, Fresh;
  }

  /** A step of worker i that moves no spec and gives it none to own that it did not own before. */
  ghost predicate Quiet(s: System, t: System, i: nat)
    requires i < |s.workers|
  {
    && |t.workers| == |s.workers| && t.workers == s.workers[i := t.workers[i]]
    && t.q == s.q && t.enqueuing == s.enqueuing
    && t.log == s.log.(spawns := t.log.spawns)
    && (Holds(t.workers[i]) <==> Holds(s.workers[i]))
    && (Owns(t.workers[i]) ==> Owns(s.workers[i]))
    && (Holds(t.workers[i]) || Owns(t.workers[i]) ==> t.workers[i].spec == s.workers[i].spec)
  }

  lemma QuietKeeps(cfg: Config, s: System, t: System, i: nat)
    requires Safe(cfg, s) && i < |s.workers| && Quiet(s, t, i)
    ensures Safe(cfg, t)
  {
    hide Quiet, Moved, Conserved, Fresh, Owned;
    QuietMoves(s, t, i);
    QuietOwned(s, t, i);
    SameSize(cfg, s);
    QuietQueue(s, t, i);
    MovedKeeps(cfg, s, t, i);
  }

  lemma QuietOwned(s: System, t: System, i: nat)
    requires Owned(s) && i < |s.workers| && Quiet(s, t, i)
    ensures Owned(t)
  {
  }

  lemma QuietQueue(s: System, t: System, i: nat)
    requires i < |s.workers| && Quiet(s, t, i)
    ensures t.q == s.q && |t.workers| == |s.workers|
  {
  }

  lemma QuietMoves(s: System, t: System, i: nat)
    requires i < |s.workers| && Quiet(s, t, i)
    ensures Moved(s, t, i)
  {
  }

  predicate Moves(act: Act) {
    act.Take? || act.Enter? || act.Acknowledge? || act.Discard? || act.Release? || act.Resend? || act.Restore?
  }

  lemma FinishIsQuiet(s: System, i: nat, outcome: Outcome)
    requires i < |s.workers| && s.workers[i].Driving?
    ensures Quiet(s, DoFinish(s, i, outcome), i)
  {
  }

  lemma DecideIsQuiet(cfg: Config, s: System, i: nat)
    requires Owned(s) && i < |s.workers| && s.workers[i].Nacking?
    ensures Quiet(s, DoDecide(cfg, s, i), i)
  {
  }

  lemma OtherActsAreQuiet(cfg: Config, s: System, i: nat, act: Act)
    requires Owned(s) && Enabled(cfg, s, Work(i, act)) && !Moves(act)
    ensures Quiet(s, DoWork(cfg, s, i, act), i)
  {
    match act
    case Finish(outcome) => FinishIsQuiet(s, i, outcome);
    case Decide => DecideIsQuiet(cfg, s, i);
    case CountSpawn => assert Quiet(s, DoCountSpawn(s, i), i);
    case Tally => assert Quiet(s, DoTally(s, i), i);
    case _ =>
  }

  lemma WorkKeeps(cfg: Config, s: System, i: nat, act: Act)
    requires Safe(cfg, s) && Enabled(cfg, s, Work(i, act))
    ensures Safe(cfg, DoWork(cfg, s, i, act))
  {
    hide Conserved, Fresh, Owned, Quiet;
    match act
    case Take => TakeKeeps(cfg, s, i);
    case Enter => EnterKeeps(cfg, s, i);
    case Acknowledge => AcknowledgeKeeps(cfg, s, i);
    case Discard => DeadLetterKeeps(cfg, s, i);
    case Release => ReleaseKeeps(cfg, s, i);
    case Resend => ResendKeeps(cfg, s, i);
    case Restore => RestoreKeeps(cfg, s, i);
    case _ =>
      OtherActsAreQuiet(cfg, s, i, act);
      QuietKeeps(cfg, s, DoWork(cfg, s, i, act), i);
  }

  // ------------------------------------------------------------------ producers, Close, Stop

  lemma AcceptIsLatest(specs: seq<WorkerSpec>, spec: WorkerSpec)
    ensures forall k :: Latest(specs + [spec], k) ==>
      if k == |specs| then (specs + [spec])[k] == spec else Latest(specs, k) && specs[k].executionId != spec.executionId
  {
    forall k | Latest(specs + [spec], k) && k < |specs|
      ensures Latest(specs, k) && specs[k].executionId != spec.executionId
    {
      assert (specs + [spec])[|specs|] == spec;
      assert forall j :: k < j < |specs| ==> (specs + [spec])[j] == specs[j];
    }
  }

  lemma AcceptPlaces(s: System, spec: WorkerSpec, id: Uuid)
    ensures var t := DoAccept(s, spec);
      Here(t, id) == Here(s, id) + Is(spec, id) && Places(t, id) == Places(s, id) + Is(spec, id)
      && Occurs(t.log.accepted, id) == Occurs(s.log.accepted, id) + Is(spec, id)
  {
    OccursAppend(s.q.pending, spec, id);
    OccursAppend(s.log.accepted, spec, id);
  }

  lemma AcceptConserves(cfg: Config, s: System, spec: WorkerSpec)
    requires Conserved(cfg, s) && Here(s, spec.executionId) == 0 && |s.q.pending| < cfg.bufferSize
    ensures Conserved(cfg, DoAccept(s, spec))
  {
    var t := DoAccept(s, spec);
    forall id
      ensures Places(t, id) == Occurs(t.log.accepted, id) && Here(t, id) <= 1
    {
      AcceptPlaces(s, spec, id);
      assert Places(s, id) == Occurs(s.log.accepted, id) && Here(s, id) <= 1;
    }
    AcceptIsLatest(s.log.accepted, spec);
    hide Places, Here, Occurs, Latest;
  }

  lemma AcceptFresh(s: System, spec: WorkerSpec)
    requires Fresh(s) && spec in s.enqueuing
    ensures Fresh(DoAccept(s, spec))
  {
    hide Here;
    var t := DoAccept(s, spec);
    forall id
      ensures Here(t, id) == Here(s, id) + Is(spec, id)
    {
      AcceptPlaces(s, spec, id);
    }
    Unwaiting(s, t, spec);
  }

  /** `spec` stops waiting. */
  lemma Unwaiting(s: System, t: System, spec: WorkerSpec)
    requires Fresh(s) && spec in s.enqueuing && t.enqueuing == s.enqueuing - multiset{spec}
    ensures forall e :: e in t.enqueuing <==> e in s.enqueuing && e.executionId != spec.executionId
    ensures forall e :: e in t.enqueuing ==> t.enqueuing[e] == s.enqueuing[e]
    ensures forall id :: Waiting(t, id) <==> Waiting(s, id) && id != spec.executionId
  {
    hide Here;
    assert s.enqueuing[spec] == 1;
    forall id
      ensures Waiting(t, id) <==> Waiting(s, id) && id != spec.executionId
    {
      if e :| e in s.enqueuing && e.executionId == id && id != spec.executionId {
        assert e in t.enqueuing;
      }
    }
  }

  lemma AcceptKeeps(cfg: Config, s: System, spec: WorkerSpec)
    requires Safe(cfg, s) && spec in s.enqueuing && |s.q.pending| < cfg.bufferSize
    ensures Safe(cfg, DoAccept(s, spec))
  {
    AcceptConserves(cfg, s, spec);
    AcceptFresh(s, spec);
    hide Conserved, Fresh, AllExited;
    assert Owned(DoAccept(s, spec));
  }

  /** Steps that change neither the specs' places nor who owns them. */
  lemma StillConserved(cfg: Config, s: System, t: System)
    requires Conserved(cfg, s) && Owned(s)
    requires t.q == s.q.(closed := t.q.closed, closeSignalled := t.q.closeSignalled) && t.workers == s.workers
    requires t.log == s.log.(inUse := t.log.inUse, clash := t.log.clash)
    ensures Conserved(cfg, t) && Owned(t) && forall id :: Here(t, id) == Here(s, id)
  {
    forall id
      ensures Places(t, id) == Places(s, id) && Here(t, id) == Here(s, id)
    {
    }
  }

  lemma BeginKeeps(cfg: Config, s: System, spec: WorkerSpec)
    requires Safe(cfg, s) && spec.executionId !in s.log.inUse
    ensures Safe(cfg, DoBegin(s, spec))
  {
    StillConserved(cfg, s, DoBegin(s, spec));
    HereNonNegative(s, spec.executionId);
    BeginFresh(s, DoBegin(s, spec), spec);
    hide Conserved, Owned, Fresh;
  }

  lemma BeginFresh(s: System, t: System, spec: WorkerSpec)
    requires Fresh(s) && spec.executionId !in s.log.inUse && t == DoBegin(s, spec)
    requires Here(s, spec.executionId) >= 0 && forall id :: Here(t, id) == Here(s, id)
    ensures Fresh(t)
  {
    hide Here;
    assert !Waiting(s, spec.executionId);
    assert forall e :: e in t.enqueuing <==> e in s.enqueuing || e == spec;
    forall id
      ensures Waiting(t, id) <==> Waiting(s, id) || id == spec.executionId
    {
      if e :| e in s.enqueuing && e.executionId == id {
        assert e in t.enqueuing;
      }
      assert spec in t.enqueuing;
    }
  }

  lemma AbandonKeeps(cfg: Config, s: System, spec: WorkerSpec)
    requires Safe(cfg, s) && spec in s.enqueuing
    ensures Safe(cfg, DoAbandon(s, spec))
  {
    StillConserved(cfg, s, DoAbandon(s, spec));
    AbandonFresh(s, DoAbandon(s, spec), spec);
    hide Conserved, Owned, Fresh;
  }

  lemma AbandonFresh(s: System, t: System, spec: WorkerSpec)
    requires Fresh(s) && spec in s.enqueuing && t == DoAbandon(s, spec) && forall id :: Here(t, id) == Here(s, id)
    ensures Fresh(t)
  {
    hide Here;
    Unwaiting(s, t, spec);
  }

  lemma FlagKeeps(cfg: Config, s: System, t: System)
    requires Safe(cfg, s)
    requires t.q == s.q.(closed := t.q.closed, closeSignalled := t.q.closeSignalled)
    requires t.workers == s.workers && t.log == s.log && t.enqueuing == s.enqueuing
    ensures Safe(cfg, t)
  {
    StillConserved(cfg, s, t);
    hide Conserved, Owned, Here;
  }

  lemma StepKeeps(cfg: Config, s: System, step: Step)
    requires Safe(cfg, s) && Enabled(cfg, s, step) && !Do(cfg, s, step).log.clash
    ensures Safe(cfg, Do(cfg, s, step))
  {
    match step
    case Work(i, act) => WorkKeeps(cfg, s, i, act);
    case BeginEnqueue(spec) => BeginKeeps(cfg, s, spec);
    case FinishEnqueue(spec) => AcceptKeeps(cfg, s, spec);
    case AbandonEnqueue(spec) => AbandonKeeps(cfg, s, spec);
    case _ => FlagKeeps(cfg, s, Do(cfg, s, step));
  }

  lemma ClashStays(cfg: Config, s: System, step: Step)
    requires Enabled(cfg, s, step) && s.log.clash
    ensures Do(cfg, s, step).log.clash
  {
  }

  lemma InitSafe(cfg: Config, n: nat)
    ensures Safe(cfg, Init(n))
  {
    forall id
      ensures Hands(Init(n).workers, id) == 0
    {
      IdleHands(Init(n).workers, id);
    }
  }

  lemma {:induction workers} IdleHands(workers: seq<Pc>, id: Uuid)
    requires forall pc :: pc in workers ==> !Holds(pc)
    ensures Hands(workers, id) == 0
  {
  }
}
