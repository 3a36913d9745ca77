/**
 * The in-process runtime (src/internal/aion/mock.go): one goroutine per worker, and any number of
 * Spawn, Wait, Cancel, Forget calls and one Close that takes effect. A step is one lock section,
 * one atomic operation, one channel operation or one branch of a select.
 */
module MockRuntime {
  import opened Specs

  datatype Script = Script(delay: int, outcome: WorkerStatus, result: string, errorMessage: string)

  /** The texts a result can carry. */
  datatype Note = Scripted(text: string) | Coerced(outcome: WorkerStatus) | CancelledByRuntime | RuntimeClosed

  datatype WorkerResult = WorkerResult(handle: nat, executionId: Uuid, status: WorkerStatus, result: string, note: Note)

  /** The runner's program counter. */
  datatype Runner = Started | Ready(result: WorkerResult) | Depositing(result: WorkerResult) | Finished

  /** Who holds, or who got, a worker's one result. */
  datatype Fate = Open | WithRunner | WithCall(call: nat) | Parked(result: WorkerResult)
      | Taken(call: nat, result: WorkerResult)

  /** `slot` is the buffered result channel; `sends` and `fate` record history. */
  datatype Worker = Worker(
    spec: WorkerSpec, script: Script, cancelled: bool, done: bool, slot: seq<WorkerResult>, runner: Runner,
    sends: nat, fate: Fate)

  /** The program counter of a Cancel or a Wait call on worker `k`. */
  datatype Call =
    | Cancelling(k: nat)                     // looked up, cancelCh to be closed
    | Claiming(k: nat)                       // compare-and-swap ahead
    | Sending(k: nat)                        // swap won, send ahead
    | Looking(k: nat)                        // Wait has seen the runtime open
    | Waiting(k: nat)                        // in Wait's select
    | Draining(k: nat)                       // in the select after closeCh
    | Delivered(k: nat, result: WorkerResult)
    | Returned                               // without a result

  datatype Closer = NotClosed | Marked | Signalled | Sweeping(left: set<nat>)

  /** `tickets` are the specs in the order of the spawn counter; a handle is its index there. */
  datatype System = System(
    entering: multiset<WorkerSpec>, tickets: seq<WorkerSpec>, workers: map<nat, Worker>, listed: set<nat>,
    calls: seq<Call>, closer: Closer)
  {
    predicate Closed() {
      !closer.NotClosed?
    }

    predicate CloseSignalled() {
      closer.Signalled? || closer.Sweeping?
    }
  }

  const INIT := System(multiset{}, [], map[], {}, [], NotClosed)

  datatype Step =
    | EnterSpawn(spec: WorkerSpec) | TakeTicket(spec: WorkerSpec) | Insert(k: nat, script: Script)
    | Run(k: nat, act: RunAct)
    | BeginCancel(k: nat) | BeginWait(k: nat) | Go(c: nat, move: CallAct)
    | MarkClosed | SignalClosed | ListWorkers | CloseOne(k: nat)
    | Forget(k: nat)

  datatype RunAct = Fire | SeeCancel | SeeClose | Claim | Deposit
  datatype CallAct = Signal | Compare | Send | Lookup | Receive | Timeout | NoticeClose | Drain

  // ------------------------------------------------------------------ results

  function ScriptedResult(k: nat, spec: WorkerSpec, script: Script): (r: WorkerResult)
    ensures r.status.IsTerminal() && r.handle == k && r.executionId == spec.executionId
    ensures script.outcome.IsTerminal() ==> r.status == script.outcome
    ensures !script.outcome.IsTerminal() && !script.outcome.Unset? ==>
      r.status.Failed? && r.note == Coerced(script.outcome)
    ensures script.outcome.Unset? ==> r.status.Completed?
  {
    var outcome := if script.outcome.Unset? then Completed else script.outcome;
    if outcome.IsTerminal()
    then WorkerResult(k, spec.executionId, outcome, script.result, Scripted(script.errorMessage))
    else WorkerResult(k, spec.executionId, Failed, script.result, Coerced(outcome))
  }

  function Cancellation(k: nat, spec: WorkerSpec, note: Note): WorkerResult {
    WorkerResult(k, spec.executionId, Cancelled, "", note)
  }

  /** `r` is what worker `k` may answer: its script's result, or a cancellation once there was one. */
  predicate Right(k: nat, w: Worker, closeSignalled: bool, r: WorkerResult) {
    || r == ScriptedResult(k, w.spec, w.script)
    || (w.script.delay > 0 && closeSignalled && r == Cancellation(k, w.spec, RuntimeClosed))
    || (w.cancelled && r == Cancellation(k, w.spec, CancelledByRuntime))
  }

  // ------------------------------------------------------------------ steps

  predicate CanRun(s: System, w: Worker, act: RunAct) {
    match act
    case Fire => w.runner.Started?
    case SeeCancel => w.runner.Started? && w.script.delay > 0 && w.cancelled
    case SeeClose => w.runner.Started? && w.script.delay > 0 && s.CloseSignalled()
    case Claim => w.runner.Ready?
    case Deposit => w.runner.Depositing? && |w.slot| < 1
  }

  predicate CanGo(s: System, call: Call, move: CallAct) {
    match move
    case Signal => call.Cancelling? && call.k in s.workers
    case Compare => call.Claiming? && call.k in s.workers
    case Send => call.Sending? && call.k in s.workers && |s.workers[call.k].slot| < 1
    case Lookup => call.Looking?
    case Receive => call.Waiting? && call.k in s.workers && s.workers[call.k].slot != []
    case Timeout => call.Waiting?
    case NoticeClose => call.Waiting? && s.CloseSignalled()
    case Drain => call.Draining? && call.k in s.workers
  }

  predicate Enabled(s: System, step: Step) {
    match step
    case EnterSpawn(spec) => !s.Closed() && spec.Valid()
    case TakeTicket(spec) => spec in s.entering
    case Insert(k, _) => k < |s.tickets| && k !in s.workers
    case Run(k, act) => k in s.workers && CanRun(s, s.workers[k], act)
    case BeginCancel(_) => true
    case BeginWait(_) => !s.Closed()
    case Go(c, move) => c < |s.calls| && CanGo(s, s.calls[c], move)
    case MarkClosed => s.closer.NotClosed?
    case SignalClosed => s.closer.Marked?
    case ListWorkers => s.closer.Signalled?
    case CloseOne(k) => s.closer.Sweeping? && k in s.closer.left && k in s.workers
    case Forget(_) => true
  }

  function NewWorker(spec: WorkerSpec, script: Script): Worker {
    Worker(spec, script, false, false, [], Started, 0, Open)
  }

  /** run, terminate and pushResult, up to and from the compare-and-swap. */
  function RunTo(k: nat, w: Worker, act: RunAct): Worker
    requires act.Claim? ==> w.runner.Ready?
    requires act.Deposit? ==> w.runner.Depositing?
  {
    match act
    case Fire => w.(runner := Ready(ScriptedResult(k, w.spec, w.script)))
    case SeeCancel => w.(runner := Ready(Cancellation(k, w.spec, CancelledByRuntime)))
    case SeeClose => w.(runner := Ready(Cancellation(k, w.spec, RuntimeClosed)))
    case Claim =>
      if w.done then w.(runner := Finished)
      else w.(done := true, runner := Depositing(w.runner.result), fate := WithRunner)
    case Deposit => Put(w, w.runner.result).(runner := Finished)
  }

  function Put(w: Worker, r: WorkerResult): Worker {
    w.(slot := w.slot + [r], sends := w.sends + 1, fate := Parked(r))
  }

  function SetWorker(s: System, k: nat, w: Worker): System {
    s.(workers := s.workers[k := w])
  }

  function SetCall(s: System, c: nat, call: Call): System
    requires c < |s.calls|
  {
    s.(calls := s.calls[c := call])
  }

  function DoCompare(s: System, c: nat): System
    requires c < |s.calls| && CanGo(s, s.calls[c], Compare)
  {
    var k := s.calls[c].k;
    var w := s.workers[k];
    if w.done then SetCall(s, c, Returned)
    else SetWorker(SetCall(s, c, Sending(k)), k, w.(done := true, fate := WithCall(c)))
  }

  function DoSend(s: System, c: nat): System
    requires c < |s.calls| && CanGo(s, s.calls[c], Send)
  {
    var k := s.calls[c].k;
    SetWorker(SetCall(s, c, Returned), k, Put(s.workers[k], Cancellation(k, s.workers[k].spec, CancelledByRuntime)))
  }

  function DoReceive(s: System, c: nat, k: nat): System
    requires c < |s.calls| && k in s.workers && s.workers[k].slot != []
  {
    var r := s.workers[k].slot[0];
    SetWorker(SetCall(s, c, Delivered(k, r)), k, s.workers[k].(slot := s.workers[k].slot[1..], fate := Taken(c, r)))
  }

  function DoGo(s: System, c: nat, move: CallAct): System
    requires c < |s.calls| && CanGo(s, s.calls[c], move)
  {
    var call := s.calls[c];
    match move
    case Signal => SetWorker(SetCall(s, c, Claiming(call.k)), call.k, s.workers[call.k].(cancelled := true))
    case Compare => DoCompare(s, c)
    case Send => DoSend(s, c)
    case Lookup => SetCall(s, c, if call.k in s.listed then Waiting(call.k) else Returned)
    case Receive => DoReceive(s, c, call.k)
    case Timeout => SetCall(s, c, Returned)
    case NoticeClose => SetCall(s, c, Draining(call.k))
    case Drain => if s.workers[call.k].slot == [] then SetCall(s, c, Returned) else DoReceive(s, c, call.k)
  }

  function Do(s: System, step: Step): System
    requires Enabled(s, step)
  {
    match step
    case EnterSpawn(spec) => s.(entering := s.entering + multiset{spec})
    case TakeTicket(spec) => s.(entering := s.entering - multiset{spec}, tickets := s.tickets + [spec])
    case Insert(k, script) => SetWorker(s, k, NewWorker(s.tickets[k], script)).(listed := s.listed + {k})
    case Run(k, act) => SetWorker(s, k, RunTo(k, s.workers[k], act))
    case BeginCancel(k) => s.(calls := s.calls + [if k in s.listed then Cancelling(k) else Returned])
    case BeginWait(k) => s.(calls := s.calls + [Looking(k)])
    case Go(c, move) => DoGo(s, c, move)
    case MarkClosed => s.(closer := Marked)
    case SignalClosed => s.(closer := Signalled)
    case ListWorkers => s.(closer := Sweeping(s.listed))
    case CloseOne(k) =>
      SetWorker(s, k, s.workers[k].(cancelled := true)).(closer := Sweeping(s.closer.left - {k}))
    case Forget(k) => s.(listed := s.listed - {k})
  }

  function Try(s: System, step: Step): System {
    if Enabled(s, step) then Do(s, step) else s
  }

  /** The state after trying `steps` in order; a step that is not enabled changes nothing. */
  function RunAll(s: System, steps: seq<Step>): System {
    if steps == [] then s else Try(RunAll(s, steps[..|steps| - 1]), steps[|steps| - 1])
  }

  lemma RunAppend(s: System, steps: seq<Step>, step: Step)
    ensures RunAll(s, steps + [step]) == Try(RunAll(s, steps), step)
  {
    assert (steps + [step])[..|steps|] == steps;
  }

  lemma RunTwo(s: System, a: Step, b: Step)
    ensures RunAll(s, [a, b]) == Try(Try(s, a), b)
  {
    RunAppend(s, [], a);
    RunAppend(s, [a], b);
    assert RunAll(s, []) == s;
    hide RunAll, Try;
    assert [] + [a] == [a] && [a] + [b] == [a, b];
  }

  lemma RunThree(s: System, a: Step, b: Step, c: Step)
    ensures RunAll(s, [a, b, c]) == Try(Try(Try(s, a), b), c)
  {
    RunTwo(s, a, b);
    RunAppend(s, [a, b], c);
    hide RunAll, Try;
    assert [a, b] + [c] == [a, b, c];
  }

  lemma RunFour(s: System, a: Step, b: Step, c: Step, d: Step)
    ensures RunAll(s, [a, b, c, d]) == Try(Try(Try(Try(s, a), b), c), d)
  {
    RunThree(s, a, b, c);
    RunAppend(s, [a, b, c], d);
    hide RunAll, Try;
    assert [a, b, c] + [d] == [a, b, c, d];
  }

  // ------------------------------------------------------------------ the object

  datatype SpawnReturn = Handle(k: nat) | SpawnClosed | InvalidSpec
  datatype WaitReturn = Got(result: WorkerResult) | WaitClosed | NotFound | TimedOut | WaitBlocks

  /** What a call that meets no other does; its contract gives the steps it takes. */
  class Runtime {
    ghost var entering: multiset<WorkerSpec>
    var tickets: seq<WorkerSpec>
    var workers: map<nat, Worker>
    var listed: set<nat>
    var closed: bool
    var closeCh: bool
    var calls: seq<Call>
    ghost var closer: Closer

    ghost function Model(): System
      reads this
    {
      System(entering, tickets, workers, listed, calls, closer)
    }

    ghost predicate Valid()
      reads this
    {
      && closed == Model().Closed() && closeCh == Model().CloseSignalled()
      && listed <= workers.Keys
      && forall k :: k in workers ==> k < |tickets| && (!workers[k].done ==> workers[k].slot == [])
    }

    constructor ()
      ensures Valid() && Model() == INIT
    {
      entering, tickets, workers, listed, calls := multiset{}, [], map[], {}, [];
      closed, closeCh, closer := false, false, NotClosed;
    }

    method Spawn(spec: WorkerSpec, script: Script) returns (r: SpawnReturn)
      requires Valid()
      modifies this
      ensures Valid()
      ensures r == if old(closed) then SpawnClosed else if !spec.Valid() then InvalidSpec else Handle(|old(tickets)|)
      ensures Model() == RunAll(old(Model()),
        if r.Handle? then [EnterSpawn(spec), TakeTicket(spec), Insert(r.k, script)] else [])
      ensures !old(closed) ==> (r.InvalidSpec? <==>
        || spec.executionId == NIL || spec.taskId == NIL || spec.agentId == NIL || spec.projectId == NIL
        || spec.model == "" || spec.provider == "" || spec.permissionMode == "" || spec.attempt < 1)
      ensures r.Handle? ==>
        && tickets == old(tickets) + [spec] && listed == old(listed) + {r.k}
        && workers == old(workers)[r.k := Worker(spec, script, false, false, [], Started, 0, Open)]
    {
      if closed {
        return SpawnClosed;
      }
      if !spec.Valid() {
        return InvalidSpec;
      }
      ghost var s := Model();
      SpawnTail(s, spec, script);
      var k := List(spec, script);
      hide RunAll;
      return Handle(k);
    }

    /** The ticket, and the worker under it. */
    method List(spec: WorkerSpec, script: Script) returns (k: nat)
      requires Valid()
      modifies this`tickets, this`workers, this`listed
      ensures Valid() && k == |old(tickets)|
      ensures var s := old(Model());
        Model() == SetWorker(s.(tickets := s.tickets + [spec]), k, NewWorker(spec, script)).(listed := s.listed + {k})
    {
      k := |tickets|;
      tickets := tickets + [spec];
      workers := workers[k := NewWorker(spec, script)];
      listed := listed + {k};
    }

    /** The compare-and-swap and the send after it. */
    method PushResult(k: nat, result: WorkerResult)
      requires Valid() && k in workers
      modifies this`workers
      ensures Valid()
      ensures workers == old(workers)[k := Pushed(old(workers)[k], result)]
      ensures workers[k].done
      ensures workers[k].slot == if old(workers)[k].done then old(workers)[k].slot else old(workers)[k].slot + [result]
    {
      if workers[k].done {
        return;
      }
      workers := workers[k := workers[k].(done := true)];
      workers := workers[k := Put(workers[k], result)];
    }

    /** run, from the branch of its select that was taken. */
    method RunWorker(k: nat, branch: RunAct)
      requires Valid() && k in workers && CanRun(Model(), workers[k], branch)
      requires branch.Fire? || branch.SeeCancel? || branch.SeeClose?
      modifies this`workers
      ensures Valid()
      ensures Model() == RunAll(old(Model()), [Run(k, branch), Run(k, Claim), Run(k, Deposit)])
    {
      var w := workers[k];
      RunTail(Model(), k, branch, w);
      var result := Outcome(k, branch);
      hide RunAll, CanRun, RunTo;
      PushResult(k, result);
      workers := workers[k := workers[k].(runner := Finished)];
    }

    /** The result that run makes on a branch. */
    method Outcome(k: nat, branch: RunAct) returns (result: WorkerResult)
      requires k in workers && (branch.Fire? || branch.SeeCancel? || branch.SeeClose?)
      ensures result == RunTo(k, workers[k], branch).runner.result
    {
      if branch.Fire? {
        result := Terminate(k);
      } else {
        result := WorkerResult(k, workers[k].spec.executionId, Cancelled, "",
                               if branch.SeeCancel? then CancelledByRuntime else RuntimeClosed);
      }
    }

    method Terminate(k: nat) returns (result: WorkerResult)
      requires k in workers
      ensures result == ScriptedResult(k, workers[k].spec, workers[k].script)
      ensures result.handle == k && result.executionId == workers[k].spec.executionId
        && Plays(result, workers[k].script)
    {
      var script := workers[k].script;
      var outcome := script.outcome;
      if outcome == Unset {
        outcome := Completed;
      }
      result := WorkerResult(k, workers[k].spec.executionId, outcome, script.result, Scripted(script.errorMessage));
      if !outcome.IsTerminal() {
        result := result.(status := Failed, note := Coerced(outcome));
      }
    }

    method Cancel(k: nat) returns (found: bool)
      requires Valid()
      modifies this
      ensures Valid() && found == (k in old(listed))
      ensures var c := |old(calls)|;
        Model() == RunAll(old(Model()), [BeginCancel(k), Go(c, Signal), Go(c, Compare), Go(c, Send)])
      ensures !found ==> workers == old(workers)
      ensures found ==>
        && k in workers && workers[k].cancelled && workers[k].done
        && workers[k].slot == if old(workers)[k].done then old(workers)[k].slot
                              else [WorkerResult(k, old(workers)[k].spec.executionId, Cancelled, "",
                                  CancelledByRuntime)]
    {
      CancelTail(Model(), k);
      if k !in listed {
        calls := calls + [Returned];
        return false;
      }
      calls := calls + [Returned];
      workers := workers[k := workers[k].(cancelled := true)];
      PushResult(k, Cancellation(k, workers[k].spec, CancelledByRuntime));
      return true;
    }

    /** `preferCtx` is the select's choice when the result and the end of ctx are both there. */
    method Wait(k: nat, ctxDone: bool, preferCtx: bool) returns (r: WaitReturn)
      requires Valid()
      modifies this
      ensures Valid() && Model() == RunAll(old(Model()), WaitSteps(|old(calls)|, k, r))
      ensures r.WaitClosed? <==> old(closed)
      ensures r.NotFound? <==> !old(closed) && k !in old(listed)
      ensures r.Got? <==> !old(closed) && k in old(listed) && old(workers)[k].slot != [] && !(ctxDone && preferCtx)
      ensures r.Got? ==> r.result == old(workers)[k].slot[0] && k in workers
                         && workers[k].slot == old(workers)[k].slot[1..]
      ensures r.TimedOut? ==> ctxDone
    {
      ghost var s := Model();
      var c := |calls|;
      if closed {
        return WaitClosed;
      }
      WaitTail(s, k);
      hide RunAll, Enabled, Do;
      if k !in listed {
        calls := calls + [Returned];
        return NotFound;
      }
      calls := calls + [Waiting(k)];
      if workers[k].slot != [] && !(ctxDone && preferCtx) {
        var result := workers[k].slot[0];
        workers := workers[k := workers[k].(slot := workers[k].slot[1..], fate := Taken(c, result))];
        calls := calls[c := Delivered(k, result)];
        return Got(result);
      }
      if ctxDone {
        calls := calls[c := Returned];
        return TimedOut;
      }
      return WaitBlocks;
    }

    method Close() returns (ghost steps: seq<Step>)
      requires Valid()
      modifies this
      ensures Valid() && closed && Model() == RunAll(old(Model()), steps)
      ensures old(closed) ==> steps == []
      ensures !old(closed) ==> closeCh && forall k :: k in listed ==> workers[k].cancelled
    {
      steps := [];
      if closed {
        return;
      }
      ghost var s := Model();
      closed, closer := true, Marked;
      closeCh, closer := true, Signalled;
      var left := listed;
      closer := Sweeping(left);
      steps := [MarkClosed, SignalClosed, ListWorkers];
      CloseHead(s);
      hide RunAll, Try, Do, Enabled;
      while left != {}
        invariant Valid() && closer == Sweeping(left) && left <= listed && closed && closeCh
        invariant Model() == RunAll(s, steps)
        invariant forall k :: k in listed - left ==> workers[k].cancelled
        decreases left
      {
        var k :| k in left;
        RunAppend(s, steps, CloseOne(k));
        TryCloseOne(Model(), k);
        CancelOne(k);
        left := left - {k};
        closer := Sweeping(left);
        steps := steps + [CloseOne(k)];
      }
    }

    method CancelOne(k: nat)
      requires Valid() && k in workers
      modifies this`workers
      ensures Valid() && workers == old(workers)[k := old(workers)[k].(cancelled := true)]
    {
      workers := workers[k := workers[k].(cancelled := true)];
    }
  }

  lemma CloseHead(s: System)
    requires !s.Closed()
    ensures RunAll(s, [MarkClosed, SignalClosed, ListWorkers]) == s.(closer := Sweeping(s.listed))
  {
    RunThree(s, MarkClosed, SignalClosed, ListWorkers);
    hide RunAll;
    assert Try(s, MarkClosed) == s.(closer := Marked);
    assert Try(s.(closer := Marked), SignalClosed) == s.(closer := Signalled);
  }

  lemma TryCloseOne(s: System, k: nat)
    requires s.closer.Sweeping? && k in s.closer.left && k in s.workers
    ensures Try(s, CloseOne(k))
            == SetWorker(s, k, s.workers[k].(cancelled := true)).(closer := Sweeping(s.closer.left - {k}))
  {
  }

  function WaitSteps(c: nat, k: nat, r: WaitReturn): seq<Step> {
    match r
    case WaitClosed => []
    case NotFound => [BeginWait(k), Go(c, Lookup)]
    case WaitBlocks => [BeginWait(k), Go(c, Lookup)]
    case Got(_) => [BeginWait(k), Go(c, Lookup), Go(c, Receive)]
    case TimedOut => [BeginWait(k), Go(c, Lookup), Go(c, Timeout)]
  }

  lemma SpawnTail(s: System, spec: WorkerSpec, script: Script)
    requires !s.Closed() && spec.Valid() && |s.tickets| !in s.workers
    ensures var k := |s.tickets|;
      RunAll(s, [EnterSpawn(spec), TakeTicket(spec), Insert(k, script)])
      == SetWorker(s.(tickets := s.tickets + [spec]), k, NewWorker(spec, script)).(listed := s.listed + {k})
  {
    RunThree(s, EnterSpawn(spec), TakeTicket(spec), Insert(|s.tickets|, script));
    hide RunAll;
    assert s.entering + multiset{spec} - multiset{spec} == s.entering;
    assert Try(Try(s, EnterSpawn(spec)), TakeTicket(spec)) == s.(tickets := s.tickets + [spec]);
  }

  /** The first two steps of a Wait, and each third one. */
  lemma WaitTail(s: System, k: nat)
    requires !s.Closed() && s.listed <= s.workers.Keys
    ensures var c, t := |s.calls|, s.(calls := s.calls + [if k in s.listed then Waiting(k) else Returned]);
      && RunAll(s, [BeginWait(k), Go(c, Lookup)]) == t
      && (k in s.listed ==> RunAll(s, [BeginWait(k), Go(c, Lookup), Go(c, Timeout)]) == SetCall(t, c, Returned))
      && (k in s.listed && s.workers[k].slot != [] ==>
            RunAll(s, [BeginWait(k), Go(c, Lookup), Go(c, Receive)]) == DoReceive(t, c, k))
  {
    var c := |s.calls|;
    RunTwo(s, BeginWait(k), Go(c, Lookup));
    RunThree(s, BeginWait(k), Go(c, Lookup), Go(c, Timeout));
    RunThree(s, BeginWait(k), Go(c, Lookup), Go(c, Receive));
    WaitHead(s, k);
    hide RunAll, Try;
    if k in s.listed {
      var t := s.(calls := s.calls + [Waiting(k)]);
      TryThird(t, c, k);
      hide DoReceive;
    }
  }

  lemma WaitHead(s: System, k: nat)
    requires !s.Closed()
    ensures Try(Try(s, BeginWait(k)), Go(|s.calls|, Lookup))
            == s.(calls := s.calls + [if k in s.listed then Waiting(k) else Returned])
  {
    var c := |s.calls|;
    var s1 := s.(calls := s.calls + [Looking(k)]);
    assert Try(s, BeginWait(k)) == s1;
    TryGo(s1, c, Lookup);
    hide Try;
    assert s1.calls[c := if k in s.listed then Waiting(k) else Returned]
           == s.calls + [if k in s.listed then Waiting(k) else Returned];
  }

  lemma TryGo(s: System, c: nat, move: CallAct)
    requires c < |s.calls|
    ensures Try(s, Go(c, move)) == if CanGo(s, s.calls[c], move) then DoGo(s, c, move) else s
  {
    hide CanGo, DoGo;
  }

  lemma TryThird(t: System, c: nat, k: nat)
    requires c < |t.calls| && t.calls[c] == Waiting(k) && k in t.workers
    ensures Try(t, Go(c, Timeout)) == SetCall(t, c, Returned)
    ensures t.workers[k].slot != [] ==> Try(t, Go(c, Receive)) == DoReceive(t, c, k)
  {
    hide DoReceive;
  }

  lemma RunTail(s: System, k: nat, branch: RunAct, w: Worker)
    requires k in s.workers && w == s.workers[k] && CanRun(s, w, branch) && (!w.done ==> w.slot == [])
    requires branch.Fire? || branch.SeeCancel? || branch.SeeClose?
    ensures RunAll(s, [Run(k, branch), Run(k, Claim), Run(k, Deposit)])
            == SetWorker(s, k, Pushed(w, RunTo(k, w, branch).runner.result).(runner := Finished))
  {
    RunThree(s, Run(k, branch), Run(k, Claim), Run(k, Deposit));
    hide RunAll, ScriptedResult;
    var w1 := RunTo(k, w, branch);
    var w2 := RunTo(k, w1, Claim);
    var s1, s2 := SetWorker(s, k, w1), SetWorker(s, k, w2);
    assert Try(s, Run(k, branch)) == s1;
    assert Try(s1, Run(k, Claim)) == s2;
    if w.done {
      assert Try(s2, Run(k, Deposit)) == s2;
    } else {
      assert Try(s2, Run(k, Deposit)) == SetWorker(s, k, RunTo(k, w2, Deposit));
    }
  }

  lemma CancelTail(s: System, k: nat)
    requires s.listed <= s.workers.Keys && (k in s.listed && !s.workers[k].done ==> s.workers[k].slot == [])
    ensures var c := |s.calls|;
      RunAll(s, [BeginCancel(k), Go(c, Signal), Go(c, Compare), Go(c, Send)])
      == if k !in s.listed then s.(calls := s.calls + [Returned])
         else SetWorker(s, k,
             Pushed(s.workers[k].(cancelled := true), Cancellation(k, s.workers[k].spec, CancelledByRuntime)))
              .(calls := s.calls + [Returned])
  {
    var c := |s.calls|;
    RunFour(s, BeginCancel(k), Go(c, Signal), Go(c, Compare), Go(c, Send));
    hide RunAll, Try, Pushed, Cancellation;
    if k in s.listed {
      CancelHead(s, k);
      CancelRest(s, k);
    } else {
      CancelNothing(s, k);
    }
  }

  lemma CancelRest(s: System, k: nat)
    requires k in s.workers && (!s.workers[k].done ==> s.workers[k].slot == [])
    ensures var c, w := |s.calls|, s.workers[k].(cancelled := true);
      Try(Try(SetWorker(s.(calls := s.calls + [Claiming(k)]), k, w), Go(c, Compare)), Go(c, Send))
      == SetWorker(s, k, Pushed(w, Cancellation(k, w.spec, CancelledByRuntime))).(calls := s.calls + [Returned])
  {
    var c, w := |s.calls|, s.workers[k].(cancelled := true);
    var t := SetWorker(s.(calls := s.calls + [Claiming(k)]), k, w);
    CancelEnd(t, c, k, w);
    hide Try, Pushed, Cancellation;
    assert t.calls[..c] == s.calls;
  }

  lemma CancelHead(s: System, k: nat)
    requires k in s.listed && k in s.workers
    ensures Try(Try(s, BeginCancel(k)), Go(|s.calls|, Signal))
            == SetWorker(s.(calls := s.calls + [Claiming(k)]), k, s.workers[k].(cancelled := true))
  {
    var s1 := s.(calls := s.calls + [Cancelling(k)]);
    assert Try(s, BeginCancel(k)) == s1;
    TryGo(s1, |s.calls|, Signal);
    hide Try;
    assert s1.calls[|s.calls| := Claiming(k)] == s.calls + [Claiming(k)];
  }

  lemma CancelNothing(s: System, k: nat)
    requires k !in s.listed
    ensures var c, t := |s.calls|, s.(calls := s.calls + [Returned]);
      Try(s, BeginCancel(k)) == t == Try(t, Go(c, Signal)) == Try(t, Go(c, Compare)) == Try(t, Go(c, Send))
  {
  }

  lemma CancelEnd(s: System, c: nat, k: nat, w: Worker)
    requires c + 1 == |s.calls| && s.calls[c] == Claiming(k) && k in s.workers && w == s.workers[k]
    requires !w.done ==> w.slot == []
    ensures Try(Try(s, Go(c, Compare)), Go(c, Send))
            == SetWorker(s, k, Pushed(w, Cancellation(k, w.spec, CancelledByRuntime)))
               .(calls := s.calls[..c] + [Returned])
  {
    assert s.calls[c := Returned] == s.calls[..c] + [Returned];
    if w.done {
      assert SetWorker(s, k, w).workers == s.workers;
    } else {
      var t := Try(s, Go(c, Compare));
      assert t == SetWorker(SetCall(s, c, Sending(k)), k, w.(done := true, fate := WithCall(c)));
      assert t.calls[c := Returned] == s.calls[..c] + [Returned];
    }
  }

  function Pushed(w: Worker, result: WorkerResult): Worker {
    if w.done then w else Put(w.(done := true), result)
  }

  // ------------------------------------------------------------------ the invariant

  /** One worker by itself. */
  predicate Coherent(k: nat, w: Worker, closeSignalled: bool) {
    && w.done == !w.fate.Open?
    && w.slot == (if w.fate.Parked? then [w.fate.result] else [])
    && w.sends == (if w.fate.Parked? || w.fate.Taken? then 1 else 0)
    && w.runner.Depositing? == w.fate.WithRunner?
    && (w.runner.Finished? ==> w.done)
    && (w.fate.Parked? || w.fate.Taken? ==> Right(k, w, closeSignalled, w.fate.result))
    && (w.runner.Ready? || w.runner.Depositing? ==> Right(k, w, closeSignalled, w.runner.result))
  }

  ghost predicate AllCoherent(s: System) {
    forall k :: k in s.workers ==>
        k < |s.tickets| && s.workers[k].spec == s.tickets[k] && Coherent(k, s.workers[k], s.CloseSignalled())
  }

  predicate OnWorker(s: System, call: Call) {
    match call
    case Cancelling(k) => k in s.workers
    case Claiming(k) => k in s.workers && s.workers[k].cancelled
    case Sending(k) => k in s.workers && s.workers[k].cancelled
    case Waiting(k) => k in s.workers
    case Draining(k) => k in s.workers
    case Delivered(k, _) => k in s.workers
    case _ => true
  }

  ghost predicate CallsKnown(s: System) {
    && s.listed <= s.workers.Keys
    && (s.closer.Sweeping? ==> s.closer.left <= s.workers.Keys)
    && forall c :: 0 <= c < |s.calls| ==> OnWorker(s, s.calls[c])
  }

  /** A call holds, or got, the worker's result exactly when the worker's fate says so. */
  ghost predicate CallsAgree(s: System) {
    && (forall k :: k in s.workers && s.workers[k].fate.WithCall? ==>
          s.workers[k].fate.call < |s.calls| && s.calls[s.workers[k].fate.call] == Sending(k))
    && (forall k :: k in s.workers && s.workers[k].fate.Taken? ==>
          s.workers[k].fate.call < |s.calls|
              && s.calls[s.workers[k].fate.call] == Delivered(k, s.workers[k].fate.result))
    && (forall c :: 0 <= c < |s.calls| && s.calls[c].Sending? && s.calls[c].k in s.workers ==>
          s.workers[s.calls[c].k].fate == WithCall(c))
    && (forall c :: 0 <= c < |s.calls| && s.calls[c].Delivered? && s.calls[c].k in s.workers ==>
          s.workers[s.calls[c].k].fate == Taken(c, s.calls[c].result))
  }

  ghost predicate Safe(s: System) {
    AllCoherent(s) && CallsKnown(s) && CallsAgree(s)
  }

  lemma InsertKeeps(s: System, k: nat, script: Script)
    requires Safe(s) && Enabled(s, Insert(k, script))
    ensures Safe(Do(s, Insert(k, script)))
  {
    assert Coherent(k, NewWorker(s.tickets[k], script), s.CloseSignalled());
    hide Coherent;
  }

  lemma CoherentKeeps(s: System, k: nat, w: Worker)
    requires AllCoherent(s) && k in s.workers && w.spec == s.workers[k].spec && Coherent(k, w, s.CloseSignalled())
    ensures AllCoherent(SetWorker(s, k, w))
  {
    hide Coherent;
  }

  lemma KnownKeeps(s: System, k: nat, w: Worker)
    requires CallsKnown(s) && k in s.workers && (s.workers[k].cancelled ==> w.cancelled)
    ensures CallsKnown(SetWorker(s, k, w))
  {
    var t := SetWorker(s, k, w);
    assert s.workers.Keys <= t.workers.Keys;
    forall c | 0 <= c < |t.calls|
      ensures OnWorker(t, t.calls[c])
    {
      assert OnWorker(s, s.calls[c]);
    }
  }

  /** A worker changes but not who holds or got its result. */
  lemma WorkerKeeps(s: System, k: nat, w: Worker)
    requires Safe(s) && k in s.workers && w.spec == s.workers[k].spec && Coherent(k, w, s.CloseSignalled())
    requires s.workers[k].cancelled ==> w.cancelled
    requires w.fate == s.workers[k].fate || (!Calls(w.fate) && !Calls(s.workers[k].fate))
    ensures Safe(SetWorker(s, k, w))
  {
    CoherentKeeps(s, k, w);
    KnownKeeps(s, k, w);
    hide Coherent, AllCoherent, CallsKnown;
  }

  predicate Calls(f: Fate) {
    f.WithCall? || f.Taken?
  }

  /** The fate of the worker and the call that changes it, together. */
  predicate Matched(k: nat, c: nat, call: Call, f: Fate) {
    && (f == WithCall(c) <==> call == Sending(k))
    && (call.Delivered? <==> f.Taken? && f.call == c)
    && (call.Delivered? ==> call == Delivered(k, f.result))
    && (call.Sending? ==> call.k == k)
  }

  lemma BothKeep(s: System, k: nat, w: Worker, c: nat, call: Call)
    requires Safe(s) && k in s.workers && w.spec == s.workers[k].spec && Coherent(k, w, s.CloseSignalled())
    requires c < |s.calls| && w.cancelled == s.workers[k].cancelled && OnWorker(s, call)
    requires s.calls[c].Sending? || s.calls[c].Delivered? ==> s.calls[c].k == k
    requires Calls(s.workers[k].fate) ==> s.workers[k].fate.call == c
    requires Calls(w.fate) ==> w.fate.call == c
    requires Matched(k, c, call, w.fate)
    ensures Safe(SetWorker(SetCall(s, c, call), k, w))
  {
    var u := SetCall(s, c, call);
    assert AllCoherent(u) && CallsKnown(u) && s.CloseSignalled() == u.CloseSignalled() by {
      hide Coherent;
    }
    CoherentKeeps(u, k, w);
    KnownKeeps(u, k, w);
    AgreeKeeps(s, k, w, c, call);
    hide Coherent, AllCoherent, CallsKnown, CallsAgree;
  }

  lemma AgreeKeeps(s: System, k: nat, w: Worker, c: nat, call: Call)
    requires CallsAgree(s) && k in s.workers && c < |s.calls|
    requires s.calls[c].Sending? || s.calls[c].Delivered? ==> s.calls[c].k == k
    requires Calls(s.workers[k].fate) ==> s.workers[k].fate.call == c
    requires Calls(w.fate) ==> w.fate.call == c
    requires Matched(k, c, call, w.fate)
    ensures CallsAgree(SetWorker(SetCall(s, c, call), k, w))
  {
  }

  lemma RunKeeps(s: System, k: nat, act: RunAct)
    requires Safe(s) && Enabled(s, Run(k, act))
    ensures Safe(Do(s, Run(k, act)))
  {
    assert Coherent(k, s.workers[k], s.CloseSignalled());
    RunCoheres(k, s.workers[k], act, s);
    WorkerKeeps(s, k, RunTo(k, s.workers[k], act));
  }

  lemma RunCoheres(k: nat, w: Worker, act: RunAct, s: System)
    requires Coherent(k, w, s.CloseSignalled()) && CanRun(s, w, act)
    ensures var w' := RunTo(k, w, act);
      && Coherent(k, w', s.CloseSignalled()) && w'.spec == w.spec && w'.cancelled == w.cancelled
      && (w'.fate == w.fate || (!Calls(w'.fate) && !Calls(w.fate)))
  {
  }

  lemma CancelledKeeps(s: System, k: nat)
    requires Safe(s) && k in s.workers
    ensures Safe(SetWorker(s, k, s.workers[k].(cancelled := true)))
  {
    assert Coherent(k, s.workers[k], s.CloseSignalled());
    assert Coherent(k, s.workers[k].(cancelled := true), s.CloseSignalled());
    WorkerKeeps(s, k, s.workers[k].(cancelled := true));
  }

  lemma SignalKeeps(s: System, c: nat)
    requires Safe(s) && Enabled(s, Go(c, Signal))
    ensures Safe(Do(s, Go(c, Signal)))
  {
    CancelledKeeps(s, s.calls[c].k);
    var t := SetWorker(s, s.calls[c].k, s.workers[s.calls[c].k].(cancelled := true));
    MoveKeeps(t, c, Claiming(s.calls[c].k));
    assert SetCall(t, c, Claiming(s.calls[c].k)) == Do(s, Go(c, Signal));
  }

  /** A call that neither holds nor takes a result may move on. */
  lemma MoveKeeps(s: System, c: nat, call: Call)
    requires Safe(s) && c < |s.calls| && !s.calls[c].Sending? && !s.calls[c].Delivered?
    requires OnWorker(s, call) && !call.Sending? && !call.Delivered?
    ensures Safe(SetCall(s, c, call))
  {
    hide Coherent;
  }

  lemma CompareKeeps(s: System, c: nat)
    requires Safe(s) && Enabled(s, Go(c, Compare))
    ensures Safe(Do(s, Go(c, Compare)))
  {
    var k := s.calls[c].k;
    var w := s.workers[k];
    if w.done {
      MoveKeeps(s, c, Returned);
    } else {
      assert OnWorker(s, s.calls[c]) && Coherent(k, w, s.CloseSignalled());
      BothKeep(s, k, w.(done := true, fate := WithCall(c)), c, Sending(k));
    }
  }

  lemma SendKeeps(s: System, c: nat)
    requires Safe(s) && Enabled(s, Go(c, Send))
    ensures Safe(Do(s, Go(c, Send)))
  {
    var k := s.calls[c].k;
    var w := s.workers[k];
    assert OnWorker(s, s.calls[c]) && w.fate == WithCall(c) && Coherent(k, w, s.CloseSignalled());
    BothKeep(s, k, Put(w, Cancellation(k, w.spec, CancelledByRuntime)), c, Returned);
  }

  lemma ReceiveKeeps(s: System, c: nat, k: nat)
    requires Safe(s) && c < |s.calls| && k in s.workers && s.workers[k].slot != []
    requires s.calls[c] == Waiting(k) || s.calls[c] == Draining(k)
    ensures Safe(DoReceive(s, c, k))
  {
    var w := s.workers[k];
    assert Coherent(k, w, s.CloseSignalled()) && w.fate == Parked(w.slot[0]);
    BothKeep(s, k, w.(slot := w.slot[1..], fate := Taken(c, w.slot[0])), c, Delivered(k, w.slot[0]));
  }

  lemma GoKeeps(s: System, c: nat, move: CallAct)
    requires Safe(s) && Enabled(s, Go(c, move))
    ensures Safe(Do(s, Go(c, move)))
  {
    var call := s.calls[c];
    match move {
      case Signal => SignalKeeps(s, c);
      case Compare => CompareKeeps(s, c);
      case Send => SendKeeps(s, c);
      case Lookup =>
        MoveKeeps(s, c, if call.k in s.listed then Waiting(call.k) else Returned);
      case Receive => ReceiveKeeps(s, c, call.k);
      case Timeout => MoveKeeps(s, c, Returned);
      case NoticeClose => MoveKeeps(s, c, Draining(call.k));
      case Drain =>
        if s.workers[call.k].slot == [] {
          MoveKeeps(s, c, Returned);
        } else {
          ReceiveKeeps(s, c, call.k);
        }
    }
  }

  lemma BeginKeeps(s: System, call: Call)
    requires Safe(s) && OnWorker(s, call) && !call.Sending? && !call.Delivered?
    ensures Safe(s.(calls := s.calls + [call]))
  {
    hide Coherent;
  }

  lemma StepKeeps(s: System, step: Step)
    requires Safe(s) && Enabled(s, step)
    ensures Safe(Do(s, step))
  {
    match step {
      case Insert(k, script) => InsertKeeps(s, k, script);
      case Run(k, act) => RunKeeps(s, k, act);
      case BeginCancel(k) => BeginKeeps(s, if k in s.listed then Cancelling(k) else Returned);
      case BeginWait(k) => BeginKeeps(s, Looking(k));
      case Go(c, move) => GoKeeps(s, c, move);
      case CloseOne(k) => CancelledKeeps(s, k);
      case _ =>
    }
  }

  lemma {:induction false} SafeAlways(steps: seq<Step>)
    ensures Safe(RunAll(INIT, steps))
  {
    if steps != [] {
      SafeAlways(steps[..|steps| - 1]);
      var before, step := RunAll(INIT, steps[..|steps| - 1]), steps[|steps| - 1];
      if Enabled(before, step) {
        StepKeeps(before, step);
      }
    }
  }

  // ------------------------------------------------------------------ what holds in every run

  /**
   * Whatever run, Cancel, Close and Wait do: a worker's result is sent at most once, at most one
   * Wait returns it, and it is that worker's, terminal, and its script's result unless the worker
   * was cancelled or the runtime closed.
   */
  lemma ResultAtMostOnce(steps: seq<Step>, k: nat)
    requires k in RunAll(INIT, steps).workers
    ensures var s := RunAll(INIT, steps);
      && s.workers[k].sends <= 1 && |s.workers[k].slot| <= 1
      && (forall c, d ::
            0 <= c < d < |s.calls| && s.calls[c].Delivered? && s.calls[d].Delivered? && s.calls[c].k == k ==>
              s.calls[d].k != k)
      && forall c :: 0 <= c < |s.calls| && s.calls[c].Delivered? && s.calls[c].k == k ==>
           var r := s.calls[c].result;
           && k < |s.tickets| && s.workers[k].slot == [] && s.workers[k].sends == 1
           && r.handle == k && r.executionId == s.tickets[k].executionId && r.status in {Completed, Failed, Cancelled}
           && (|| Plays(r, s.workers[k].script)
               || (s.workers[k].cancelled && r.status.Cancelled? && r.result == "" && r.note == CancelledByRuntime)
               || (s.CloseSignalled() && s.workers[k].script.delay > 0
                   && r.status.Cancelled? && r.result == "" && r.note == RuntimeClosed))
  {
    SafeAlways(steps);
  }

  /** The script's texts; a status that is not terminal is told in the note, and none at all is completed. */
  predicate Plays(r: WorkerResult, script: Script) {
    && r.result == script.result
    && (if script.outcome.Unset? then r.status.Completed? && r.note == Scripted(script.errorMessage)
        else if script.outcome in {Completed, Failed, Cancelled}
        then r.status == script.outcome && r.note == Scripted(script.errorMessage)
        else r.status.Failed? && r.note == Coerced(script.outcome))
  }

  /** Whoever won the swap finds the one-slot channel empty, so neither run nor Cancel blocks on it. */
  lemma SendNeverBlocks(steps: seq<Step>)
    ensures var s := RunAll(INIT, steps);
      && (forall k :: k in s.workers && s.workers[k].runner.Depositing? ==> Enabled(s, Run(k, Deposit)))
      && forall c :: 0 <= c < |s.calls| && s.calls[c].Sending? ==> Enabled(s, Go(c, Send))
  {
    SafeAlways(steps);
    var s := RunAll(INIT, steps);
    forall c | 0 <= c < |s.calls| && s.calls[c].Sending?
      ensures Enabled(s, Go(c, Send))
    {
      assert OnWorker(s, s.calls[c]);
      assert Coherent(s.calls[c].k, s.workers[s.calls[c].k], s.CloseSignalled());
    }
  }

  /**
   * Once a worker's goroutine has ended and no Cancel is about to send for it, its result is there:
   * waiting in the channel, or returned by exactly one Wait.
   */
  lemma ResultIsNeverLost(steps: seq<Step>, k: nat)
    requires var s := RunAll(INIT, steps);
      k in s.workers && s.workers[k].runner.Finished? && forall c :: 0 <= c < |s.calls| ==> s.calls[c] != Sending(k)
    ensures var s := RunAll(INIT, steps);
      s.workers[k].slot == [] <==> exists c :: 0 <= c < |s.calls| && s.calls[c].Delivered? && s.calls[c].k == k
  {
    SafeAlways(steps);
    var s := RunAll(INIT, steps);
    assert Coherent(k, s.workers[k], s.CloseSignalled());
  }
}
