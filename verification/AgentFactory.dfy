/**
 * The agent factory (src/internal/agentfactory/agent_factory.go): any number of SpawnAgent calls
 * interleaved with Shutdown. A step is one lock section, one runtime.Spawn or one signal.
 */
module AgentFactory {
  import opened Specs

  datatype AgentHandle = AgentHandle(agentId: Uuid, executionId: Uuid, pid: int)

  /** A SpawnAgent call between two of its steps. */
  datatype Spawner =
    | Launching(agentId: Uuid, executionId: Uuid)   // found the factory open, runtime.Spawn ahead
    | Holding(handle: AgentHandle)                  // process runs, tracking section ahead
    | Signalling(handle: AgentHandle)               // Shutdown came in between, SIGTERM ahead
    | Returned

  /** Where a process is. */
  datatype Place = InHand(call: nat) | Tracked(agentId: Uuid) | Swapped(agentId: Uuid) | Signalled | Overwritten

  /**
   * `swapped` is what Shutdown still has to go through. The last four are history: processes that
   * were sent SIGTERM (the signal may have failed), that were started, the handles in the order
   * they entered the tracking map, and where each process is.
   */
  datatype System = System(
    stopped: bool, spawners: seq<Spawner>, tracked: map<Uuid, AgentHandle>, swapped: map<Uuid, AgentHandle>,
    signalled: set<int>, spawned: set<int>, registered: seq<AgentHandle>, at: map<int, Place>)

  const INIT := System(false, [], map[], map[], {}, {}, [], map[])

  datatype Step =
    | Enter(agentId: Uuid, executionId: Uuid)
    | Launch(i: nat, pid: int)
    | LaunchFails(i: nat)
    | Register(i: nat)
    | SignalLate(i: nat)
    | Swap
    | SignalTracked(agentId: Uuid)

  /** The system gives a new process a PID no earlier one had; 0 stands for a runtime without processes. */
  predicate Enabled(s: System, step: Step) {
    match step
    case Enter(_, _) => !s.stopped
    case Launch(i, pid) => i < |s.spawners| && s.spawners[i].Launching? && pid !in s.spawned
    case LaunchFails(i) => i < |s.spawners| && s.spawners[i].Launching?
    case Register(i) => i < |s.spawners| && s.spawners[i].Holding?
    case SignalLate(i) => i < |s.spawners| && s.spawners[i].Signalling?
    case Swap => !s.stopped
    case SignalTracked(a) => a in s.swapped
  }

  function Goto(s: System, i: nat, pc: Spawner): System
    requires i < |s.spawners|
  {
    s.(spawners := s.spawners[i := pc])
  }

  function DoLaunch(s: System, i: nat, pid: int): System
    requires Enabled(s, Launch(i, pid))
  {
    var t := Goto(s, i, Holding(AgentHandle(s.spawners[i].agentId, s.spawners[i].executionId, pid)));
    if pid == 0 then t else t.(spawned := s.spawned + {pid}, at := s.at[pid := InHand(i)])
  }

  function Move(at: map<int, Place>, pid: int, place: Place): map<int, Place> {
    if pid == 0 then at else at[pid := place]
  }

  function DoRegister(s: System, i: nat): System
    requires Enabled(s, Register(i))
  {
    var h := s.spawners[i].handle;
    if s.stopped then Goto(s, i, if h.pid == 0 then Returned else Signalling(h))
    else
      var at := if h.agentId in s.tracked then Move(s.at, s.tracked[h.agentId].pid, Overwritten) else s.at;
      Goto(s, i, Returned).(
        tracked := s.tracked[h.agentId := h], registered := s.registered + [h],
        at := Move(at, h.pid, Tracked(h.agentId)))
  }

  function DoSignalLate(s: System, i: nat): System
    requires Enabled(s, SignalLate(i))
  {
    var pid := s.spawners[i].handle.pid;
    Goto(s, i, Returned).(signalled := s.signalled + {pid}, at := s.at[pid := Signalled])
  }

  function DoSwap(s: System): System {
    s.(stopped := true, tracked := map[], swapped := s.tracked,
       at := map p | p in s.at :: if s.at[p].Tracked? then Swapped(s.at[p].agentId) else s.at[p])
  }

  function DoSignalTracked(s: System, a: Uuid): System
    requires a in s.swapped
  {
    var pid := s.swapped[a].pid;
    var t := s.(swapped := s.swapped - {a});
    if pid == 0 then t else t.(signalled := s.signalled + {pid}, at := s.at[pid := Signalled])
  }

  function Do(s: System, step: Step): System
    requires Enabled(s, step)
  {
    match step
    case Enter(a, e) => s.(spawners := s.spawners + [Launching(a, e)])
    case Launch(i, pid) => DoLaunch(s, i, pid)
    case LaunchFails(i) => Goto(s, i, Returned)
    case Register(i) => DoRegister(s, i)
    case SignalLate(i) => DoSignalLate(s, i)
    case Swap => DoSwap(s)
    case SignalTracked(a) => DoSignalTracked(s, a)
  }

  function Try(s: System, step: Step): System {
    if Enabled(s, step) then Do(s, step) else s
  }

  /** The state after trying `steps` in order; a step that is not enabled changes nothing. */
  function Run(s: System, steps: seq<Step>): System {
    if steps == [] then s else Try(Run(s, steps[..|steps| - 1]), steps[|steps| - 1])
  }

  // ------------------------------------------------------------------ the invariant

  predicate Holds(pc: Spawner, p: int) {
    (pc.Holding? || pc.Signalling?) && pc.handle.pid == p
  }

  /** A process in a call's hand is where `at` says, and the other way round. */
  ghost predicate HandsPlaced(s: System) {
    && (forall i :: 0 <= i < |s.spawners| && (s.spawners[i].Holding? || s.spawners[i].Signalling?) ==>
          var p := s.spawners[i].handle.pid;
          && (p != 0 ==> p in s.at && s.at[p] == InHand(i)) && (s.spawners[i].Signalling? ==> s.stopped && p != 0))
    && (forall p :: p in s.at && s.at[p].InHand? ==> s.at[p].call < |s.spawners| && Holds(s.spawners[s.at[p].call], p))
  }

  ghost predicate MapsPlaced(s: System) {
    && (forall a :: a in s.tracked ==>
          s.tracked[a].agentId == a
              && (s.tracked[a].pid != 0 ==> s.tracked[a].pid in s.at && s.at[s.tracked[a].pid] == Tracked(a)))
    && (forall a :: a in s.swapped ==>
          s.swapped[a].agentId == a
              && (s.swapped[a].pid != 0 ==> s.swapped[a].pid in s.at && s.at[s.swapped[a].pid] == Swapped(a)))
    && (forall p :: p in s.at && s.at[p].Tracked? ==>
         s.at[p].agentId in s.tracked && s.tracked[s.at[p].agentId].pid == p)
    && (forall p :: p in s.at && s.at[p].Swapped? ==>
         s.at[p].agentId in s.swapped && s.swapped[s.at[p].agentId].pid == p)
  }

  ghost predicate SetsPlaced(s: System) {
    && s.spawned == s.at.Keys && 0 !in s.spawned
    && (forall p :: p in s.signalled <==> p in s.at && s.at[p].Signalled?)
    && (if s.stopped then s.tracked == map[] else s.swapped == map[])
  }

  /** A later registration of the same agent followed this process's. */
  ghost predicate Displaced(registered: seq<AgentHandle>, p: int) {
    exists i, j :: 0 <= i < j < |registered| && registered[i].pid == p && registered[i].agentId == registered[j].agentId
  }

  /** The tracking map as its registrations left it. */
  function Latest(registered: seq<AgentHandle>): map<Uuid, AgentHandle> {
    if registered == [] then map[]
    else
      var h := registered[|registered| - 1];
      Latest(registered[..|registered| - 1])[h.agentId := h]
  }

  /** Overwritten processes are the displaced ones. */
  ghost predicate HistoryPlaced(s: System) {
    && (!s.stopped ==> s.tracked == Latest(s.registered))
    && (forall p :: p in s.at && p != 0 ==> (s.at[p].Overwritten? <==> Displaced(s.registered, p)))
    && (forall i :: 0 <= i < |s.registered| && s.registered[i].pid != 0 ==>
         s.registered[i].pid in s.at && !s.at[s.registered[i].pid].InHand?)
  }

  /** No two registered processes share a PID. */
  ghost predicate OwnPids(registered: seq<AgentHandle>) {
    forall i, j :: 0 <= i < j < |registered| && registered[i].pid == registered[j].pid ==> registered[i].pid == 0
  }

  ghost predicate Safe(s: System) {
    HandsPlaced(s) && MapsPlaced(s) && SetsPlaced(s) && HistoryPlaced(s) && OwnPids(s.registered)
  }

  lemma {:induction false} LatestIn(registered: seq<AgentHandle>, i: nat)
    requires i < |registered|
    ensures var a, m := registered[i].agentId, Latest(registered);
      && a in m && m[a] in registered
      && (m[a] != registered[i] ==> Displaced(registered, registered[i].pid))
  {
    var front, h := registered[..|registered| - 1], registered[|registered| - 1];
    if i < |front| {
      LatestIn(front, i);
      assert front[i] == registered[i];
      if Displaced(front, registered[i].pid) {
        var k, j :| 0 <= k < j < |front| && front[k].pid == registered[i].pid && front[k].agentId == front[j].agentId;
        assert registered[k] == front[k] && registered[j] == front[j];
      }
    }
  }

  lemma {:induction false} LatestHas(registered: seq<AgentHandle>, a: Uuid)
    ensures a in Latest(registered) <==> exists i :: 0 <= i < |registered| && registered[i].agentId == a
    ensures a in Latest(registered) ==> Latest(registered)[a] in registered && Latest(registered)[a].agentId == a
  {
    if registered != [] {
      var front, h := registered[..|registered| - 1], registered[|registered| - 1];
      LatestHas(front, a);
      if a in Latest(front) {
        var i :| 0 <= i < |front| && front[i].agentId == a;
        assert registered[i].agentId == a;
      }
    }
  }

  /** One more registration displaces exactly the process that the agent had until then. */
  lemma DisplacedAppend(registered: seq<AgentHandle>, h: AgentHandle, p: int)
    requires OwnPids(registered) && p != 0
    ensures var m := Latest(registered);
      Displaced(registered + [h], p) <==> Displaced(registered, p) || (h.agentId in m && m[h.agentId].pid == p)
  {
    var more, m, a := registered + [h], Latest(registered), h.agentId;
    LatestHas(registered, a);
    if Displaced(registered, p) {
      var i, j :| 0 <= i < j < |registered| && registered[i].pid == p && registered[i].agentId == registered[j].agentId;
      assert more[i] == registered[i] && more[j] == registered[j];
    }
    if a in m && m[a].pid == p {
      var i :| 0 <= i < |registered| && registered[i] == m[a];
      assert more[i] == registered[i] && more[|registered|] == h;
    }
    if Displaced(more, p) {
      var i, j :| 0 <= i < j < |more| && more[i].pid == p && more[i].agentId == more[j].agentId;
      assert more[i] == registered[i];
      if j < |registered| {
        assert more[j] == registered[j];
      } else {
        LatestIn(registered, i);
      }
    }
  }

  lemma EnterKeeps(s: System, a: Uuid, e: Uuid)
    requires Safe(s)
    ensures Safe(s.(spawners := s.spawners + [Launching(a, e)]))
  {
    hide Latest, Displaced;
  }

  lemma LaunchKeeps(s: System, i: nat, pid: int)
    requires Safe(s) && Enabled(s, Launch(i, pid))
    ensures Safe(DoLaunch(s, i, pid))
  {
    hide Latest, Displaced;
    assert pid != 0 ==> pid !in s.at;
    if pid != 0 {
      NotDisplaced(s.registered, pid);
    }
  }

  lemma NotDisplaced(registered: seq<AgentHandle>, pid: int)
    requires forall i :: 0 <= i < |registered| ==> registered[i].pid != pid
    ensures !Displaced(registered, pid)
  {
  }

  lemma LaunchFailsKeeps(s: System, i: nat)
    requires Safe(s) && Enabled(s, LaunchFails(i))
    ensures Safe(Goto(s, i, Returned))
  {
    hide Latest, Displaced;
  }

  lemma RegisterLateKeeps(s: System, i: nat)
    requires Safe(s) && Enabled(s, Register(i)) && s.stopped
    ensures Safe(DoRegister(s, i))
  {
    hide Latest, Displaced;
  }

  lemma RegisterKeeps(s: System, i: nat)
    requires Safe(s) && Enabled(s, Register(i)) && !s.stopped
    ensures Safe(DoRegister(s, i))
  {
    RegisterKeepsHands(s, i);
    RegisterKeepsMaps(s, i);
    RegisterKeepsHistory(s, i);
    hide HandsPlaced, MapsPlaced, HistoryPlaced, OwnPids;
  }

  lemma RegisterKeepsHands(s: System, i: nat)
    requires Safe(s) && Enabled(s, Register(i)) && !s.stopped
    ensures HandsPlaced(DoRegister(s, i))
  {
    hide HistoryPlaced, OwnPids;
  }

  lemma RegisterKeepsMaps(s: System, i: nat)
    requires Safe(s) && Enabled(s, Register(i)) && !s.stopped
    ensures MapsPlaced(DoRegister(s, i)) && SetsPlaced(DoRegister(s, i))
  {
    hide HistoryPlaced, OwnPids;
  }

  lemma RegisterKeepsHistory(s: System, i: nat)
    requires Safe(s) && Enabled(s, Register(i)) && !s.stopped
    ensures HistoryPlaced(DoRegister(s, i)) && OwnPids(DoRegister(s, i).registered)
  {
    var h, t := s.spawners[i].handle, DoRegister(s, i);
    assert t.registered[..|s.registered|] == s.registered;
    assert h.pid != 0 ==> s.at[h.pid] == InHand(i);
    forall p | p in t.at && p != 0
      ensures t.at[p].Overwritten? <==> Displaced(t.registered, p)
    {
      DisplacedAppend(s.registered, h, p);
      if p == h.pid {
        NotDisplaced(s.registered, p);
      }
    }
    hide Latest, Displaced;
  }

  lemma SignalLateKeeps(s: System, i: nat)
    requires Safe(s) && Enabled(s, SignalLate(i))
    ensures Safe(DoSignalLate(s, i))
  {
    hide Latest, Displaced;
  }

  lemma SwapKeeps(s: System)
    requires Safe(s) && !s.stopped
    ensures Safe(DoSwap(s))
  {
    hide Latest, Displaced;
  }

  lemma SignalTrackedKeeps(s: System, a: Uuid)
    requires Safe(s) && a in s.swapped
    ensures Safe(DoSignalTracked(s, a))
  {
    hide Latest, Displaced;
  }

  lemma StepKeeps(s: System, step: Step)
    requires Safe(s) && Enabled(s, step)
    ensures Safe(Do(s, step))
  {
    match step {
      case Enter(a, e) => EnterKeeps(s, a, e);
      case Launch(i, pid) => LaunchKeeps(s, i, pid);
      case LaunchFails(i) => LaunchFailsKeeps(s, i);
      case Register(i) =>
        if s.stopped {
          RegisterLateKeeps(s, i);
        } else {
          RegisterKeeps(s, i);
        }
      case SignalLate(i) => SignalLateKeeps(s, i);
      case Swap => SwapKeeps(s);
      case SignalTracked(a) => SignalTrackedKeeps(s, a);
    }
    hide Safe, DoLaunch, DoRegister, DoSignalLate, DoSwap, DoSignalTracked, Goto;
  }

  lemma {:induction false} SafeAlways(steps: seq<Step>)
    ensures Safe(Run(INIT, steps))
  {
    if steps == [] {
      assert forall p :: !Displaced([], p);
    } else {
      SafeAlways(steps[..|steps| - 1]);
      var before, step := Run(INIT, steps[..|steps| - 1]), steps[|steps| - 1];
      if Enabled(before, step) {
        StepKeeps(before, step);
      }
      hide Safe, Do, Enabled;
    }
  }

  // ------------------------------------------------------------------ what holds in every run

  ghost predicate Held(s: System, p: int) {
    exists i :: 0 <= i < |s.spawners| && Holds(s.spawners[i], p)
  }

  ghost predicate In(m: map<Uuid, AgentHandle>, p: int) {
    exists a :: a in m && m[a].pid == p
  }

  ghost function One(b: bool): nat {
    if b then 1 else 0
  }

  /**
   * Whatever the interleaving, a started process is in exactly one place: the hand of a SpawnAgent
   * call, the tracking map, the map that Shutdown took away, signalled, or displaced by a later
   * SpawnAgent for the same agent.
   */
  lemma EveryProcessInOnePlace(steps: seq<Step>, p: int)
    requires p in Run(INIT, steps).spawned
    ensures var s := Run(INIT, steps);
      One(Held(s, p)) + One(In(s.tracked, p)) + One(In(s.swapped, p)) + One(p in s.signalled)
          + One(Displaced(s.registered, p)) == 1
  {
    SafeAlways(steps);
    var s := Run(INIT, steps);
    hide Run, Latest, Displaced;
    assert Held(s, p) <==> s.at[p].InHand? by {
      if s.at[p].InHand? {
        assert Holds(s.spawners[s.at[p].call], p);
      }
    }
    assert In(s.tracked, p) <==> s.at[p].Tracked?;
    assert In(s.swapped, p) <==> s.at[p].Swapped?;
    assert p in s.signalled <==> s.at[p].Signalled?;
    assert Displaced(s.registered, p) <==> s.at[p].Overwritten?;
  }

  ghost predicate Finished(s: System) {
    s.stopped && s.swapped == map[] && forall i :: 0 <= i < |s.spawners| ==> s.spawners[i].Returned?
  }

  /**
   * Once Shutdown and all SpawnAgent calls have returned, nothing is tracked, and a started process
   * was sent SIGTERM if and only if no later registration of its agent displaced it.
   */
  lemma OrphansAreTheDisplaced(steps: seq<Step>)
    requires Finished(Run(INIT, steps))
    ensures var s := Run(INIT, steps);
      s.tracked == map[] && forall p :: p in s.spawned ==> (p in s.signalled <==> !Displaced(s.registered, p))
  {
    var s := Run(INIT, steps);
    SafeAlways(steps);
    forall p | p in s.spawned
      ensures p in s.signalled <==> !Displaced(s.registered, p)
    {
      EveryProcessInOnePlace(steps, p);
    }
  }

  /** With one SpawnAgent per agent no process is left behind. */
  lemma NoOrphans(steps: seq<Step>)
    requires Finished(Run(INIT, steps))
    requires var r := Run(INIT, steps).registered; forall i, j :: 0 <= i < j < |r| ==> r[i].agentId != r[j].agentId
    ensures var s := Run(INIT, steps); s.tracked == map[] && s.signalled == s.spawned
  {
    SafeAlways(steps);
    OrphansAreTheDisplaced(steps);
    var s := Run(INIT, steps);
    assert forall p :: !Displaced(s.registered, p);
    assert forall p :: p in s.signalled ==> p in s.spawned;
    assert forall p :: p in s.spawned ==> p in s.signalled;
  }

  lemma FirstSpawn(a: Uuid, e: Uuid) returns (steps: seq<Step>, s: System)
    ensures steps == [Enter(a, e), Launch(0, 1), Register(0)] && s == Run(INIT, steps)
    ensures s == System(false, [Returned], map[a := AgentHandle(a, e, 1)], map[], {}, {1}, [AgentHandle(a, e, 1)],
      map[1 := Tracked(a)])
  {
    RunNothing(INIT);
    hide Run;
    steps, s := Extend(INIT, [], INIT, Enter(a, e));
    steps, s := Extend(INIT, steps, s, Launch(0, 1));
    steps, s := Extend(INIT, steps, s, Register(0));
  }

  lemma SecondSpawn(a: Uuid, e: Uuid) returns (steps: seq<Step>, s: System)
    ensures steps == [Enter(a, e), Launch(0, 1), Register(0), Enter(a, e), Launch(1, 2), Register(1)]
      && s == Run(INIT, steps)
    ensures var h1, h2 := AgentHandle(a, e, 1), AgentHandle(a, e, 2);
      s == System(false, [Returned, Returned], map[a := h2], map[], {}, {1, 2}, [h1, h2],
          map[1 := Overwritten, 2 := Tracked(a)])
  {
    var h1, h2 := AgentHandle(a, e, 1), AgentHandle(a, e, 2);
    steps, s := FirstSpawn(a, e);
    hide Run;
    steps, s := Extend(INIT, steps, s, Enter(a, e));
    assert s.spawners == [Returned, Launching(a, e)];
    steps, s := Extend(INIT, steps, s, Launch(1, 2));
    assert s.spawners == [Returned, Holding(h2)] && s.at == map[1 := Tracked(a), 2 := InHand(1)];
    steps, s := Extend(INIT, steps, s, Register(1));
    assert s.spawners == [Returned, Returned];
    assert s.at == map[1 := Overwritten, 2 := Tracked(a)];
  }

  /** Two SpawnAgent calls for one agent, then Shutdown: the first process is never signalled. */
  lemma RespawnLeavesAnOrphan(a: Uuid, e: Uuid)
    ensures var s := Run(INIT,
      [Enter(a, e), Launch(0, 1), Register(0), Enter(a, e), Launch(1, 2), Register(1), Swap, SignalTracked(a)]);
      Finished(s) && s.spawned == {1, 2} && s.signalled == {2}
  {
    var steps, s := SecondSpawn(a, e);
    hide Run;
    steps, s := Extend(INIT, steps, s, Swap);
    steps, s := Extend(INIT, steps, s, SignalTracked(a));
    assert s.signalled == {2} && s.swapped == map[];
    assert steps == [Enter(a, e), Launch(0, 1), Register(0), Enter(a, e), Launch(1, 2), Register(1), Swap,
        SignalTracked(a)];
  }

  lemma RunNothing(s: System)
    ensures Run(s, []) == s
  {
  }

  lemma Extend(s: System, steps: seq<Step>, t: System, step: Step) returns (more: seq<Step>, u: System)
    requires t == Run(s, steps)
    ensures more == steps + [step] && u == Try(t, step) && u == Run(s, more)
  {
    more := steps + [step];
    assert more[..|steps|] == steps;
    u := Try(t, step);
  }

  // ------------------------------------------------------------------ the object

  lemma FailRun(s: System, a: Uuid, e: Uuid)
    requires !s.stopped
    ensures Run(s, [Enter(a, e), LaunchFails(|s.spawners|)]) == s.(spawners := s.spawners + [Returned])
  {
    var i := |s.spawners|;
    RunNothing(s);
    hide Run;
    var steps, t := Extend(s, [], s, Enter(a, e));
    assert t == s.(spawners := s.spawners + [Launching(a, e)]);
    steps, t := Extend(s, steps, t, LaunchFails(i));
    assert t.spawners == s.spawners + [Returned];
    assert steps == [Enter(a, e), LaunchFails(i)];
  }

  /** A SpawnAgent up to its second section, in `t`, and from there to its end. */
  lemma SpawnRun(s: System, h: AgentHandle) returns (t: System)
    requires !s.stopped && h.pid !in s.spawned
    ensures t == s.(spawners := s.spawners + [Holding(h)], spawned := t.spawned, at := t.at)
    ensures var i := |s.spawners|;
      Run(s, [Enter(h.agentId, h.executionId), Launch(i, h.pid), Register(i), SignalLate(i)])
          == Try(Try(t, Register(i)), SignalLate(i))
  {
    var i := |s.spawners|;
    RunNothing(s);
    hide Run;
    var steps, u := Extend(s, [], s, Enter(h.agentId, h.executionId));
    assert u == s.(spawners := s.spawners + [Launching(h.agentId, h.executionId)]);
    steps, t := Extend(s, steps, u, Launch(i, h.pid));
    assert t.spawners == s.spawners + [Holding(h)];
    hide Try;
    steps, u := Extend(s, steps, t, Register(i));
    steps, u := Extend(s, steps, u, SignalLate(i));
    assert steps == [Enter(h.agentId, h.executionId), Launch(i, h.pid), Register(i), SignalLate(i)];
  }

  datatype AgentRef = NilAgent | Agent(id: Uuid)
  datatype LaunchResult = Started(pid: int) | StartFailed
  datatype SpawnReturn = Spawned(handle: AgentHandle) | ErrNilAgent | ErrAlreadyShutdown | ErrSpawn

  class Factory {
    var tracked: map<Uuid, AgentHandle>
    var stopped: bool
    var runtimeClosed: bool
    ghost var spawners: seq<Spawner>
    ghost var swapped: map<Uuid, AgentHandle>
    ghost var signalled: set<int>
    ghost var spawned: set<int>
    ghost var registered: seq<AgentHandle>
    ghost var at: map<int, Place>

    ghost function Model(): System
      reads this
    {
      System(stopped, spawners, tracked, swapped, signalled, spawned, registered, at)
    }

    constructor ()
      ensures Model() == INIT && !runtimeClosed
    {
      runtimeClosed := false;
      stopped, spawners, tracked, swapped := false, [], map[], map[];
      signalled, spawned, registered, at := {}, {}, [], map[];
    }

    /** `launch` is what runtime.Spawn returns; no other call comes in between. */
    method SpawnAgent(agent: AgentRef, executionId: Uuid, launch: LaunchResult) returns (r: SpawnReturn)
      requires launch.Started? ==> launch.pid !in spawned
      modifies this
      ensures r == (match agent
                    case NilAgent => ErrNilAgent
                    case Agent(id) =>
                      if old(stopped) then ErrAlreadyShutdown
                      else match launch
                           case StartFailed => ErrSpawn
                           case Started(pid) => Spawned(AgentHandle(id, executionId, pid)))
      ensures var i := |old(spawners)|;
        Model() == (match r
                    case Spawned(h) => Run(old(Model()),
                        [Enter(h.agentId, executionId), Launch(i, h.pid), Register(i), SignalLate(i)])
                    case ErrSpawn => Run(old(Model()), [Enter(agent.id, executionId), LaunchFails(i)])
                    case _ => old(Model()))
      ensures runtimeClosed == old(runtimeClosed)
      ensures tracked == if r.Spawned? then old(tracked)[r.handle.agentId := r.handle] else old(tracked)
      ensures signalled == old(signalled) && stopped == old(stopped)
    {
      if agent.NilAgent? {
        return ErrNilAgent;
      }
      if stopped {
        return ErrAlreadyShutdown;
      }
      ghost var i := |spawners|;
      ghost var s := Model();
      if launch.StartFailed? {
        FailRun(s, agent.id, executionId);
        spawners := spawners + [Returned];
        return ErrSpawn;
      }
      var h := AgentHandle(agent.id, executionId, launch.pid);
      ghost var t := SpawnRun(s, h);
      spawners, spawned, at := t.spawners, t.spawned, t.at;
      var ok := Track(h, i);
      return Spawned(h);
    }

    /** From the second lock section on; Shutdown may have come before it. */
    method Track(h: AgentHandle, ghost i: nat) returns (ok: bool)
      requires i < |spawners| && spawners[i] == Holding(h)
      modifies this
      ensures ok == !old(stopped) && stopped == old(stopped) && runtimeClosed == old(runtimeClosed)
      ensures Model() == Try(Try(old(Model()), Register(i)), SignalLate(i))
      ensures tracked == if ok then old(tracked)[h.agentId := h] else old(tracked)
      ensures signalled == if ok || h.pid == 0 then old(signalled) else old(signalled) + {h.pid}
    {
      ghost var s := Model();
      ghost var t := Try(s, Register(i));
      if stopped {
        if h.pid != 0 {
          signalled := signalled + {h.pid};
          at := at[h.pid := Signalled];
        }
        spawners := spawners[i := Returned];
        return false;
      }
      tracked := tracked[h.agentId := h];
      spawners, registered, at := t.spawners, t.registered, t.at;
      return true;
    }

    /** `closeFails` says whether the runtime's Close, which comes after the signals, returns an error. */
    method Shutdown(closeFails: bool) returns (ok: bool, ghost steps: seq<Step>)
      requires !stopped ==> swapped == map[]
      modifies this
      ensures ok <==> old(stopped) || !closeFails
      ensures runtimeClosed == (old(runtimeClosed) || !old(stopped))
      ensures Model() == Run(old(Model()), steps) && stopped
      ensures old(stopped) ==> steps == []
      ensures !old(stopped) ==> tracked == map[] && swapped == map[]
      ensures !old(stopped) ==> signalled == old(signalled) + Pids(old(tracked))
      ensures spawners == old(spawners) && spawned == old(spawned)
    {
      steps := [];
      RunNothing(Model());
      ok := true;
      if stopped {
        return;
      }
      ghost var s1;
      steps, s1 := Extend(Model(), [], Model(), Swap);
      TrySwap(Model());
      hide Run, Try, Pids;
      stopped := true;
      var tmap := tracked;
      tracked := map[];
      swapped, at := tmap, s1.at;
      steps := SignalAll(tmap, old(Model()), steps);
      runtimeClosed := true;
      ok := !closeFails;
    }

    /** The loop over the map that was swapped out. */
    method SignalAll(tmap: map<Uuid, AgentHandle>, ghost s: System, ghost before: seq<Step>)
      returns (ghost steps: seq<Step>)
      requires swapped == tmap && Model() == Run(s, before)
      modifies this`swapped, this`signalled, this`at
      ensures Model() == Run(s, steps) && swapped == map[] && signalled == old(signalled) + Pids(tmap)
    {
      steps := before;
      var todo := tmap.Keys;
      hide Run;
      while todo != {}
        invariant todo <= tmap.Keys && swapped == tmap - (tmap.Keys - todo)
        invariant signalled == old(signalled) + Pids(tmap - todo)
        invariant Model() == Run(s, steps)
        decreases todo
      {
        var a :| a in todo;
        ghost var u;
        steps, u := Extend(s, steps, Model(), SignalTracked(a));
        TrySignal(Model(), a);
        PidsMore(tmap, todo, a);
        hide Pids, Try;
        if tmap[a].pid != 0 {
          signalled := signalled + {tmap[a].pid};
          at := at[tmap[a].pid := Signalled];
        }
        swapped := swapped - {a};
        todo := todo - {a};
      }
      assert tmap - {} == tmap;
    }
  }

  lemma TrySwap(s: System)
    requires !s.stopped
    ensures Try(s, Swap) == DoSwap(s)
  {
  }

  lemma TrySignal(s: System, a: Uuid)
    requires a in s.swapped
    ensures Try(s, SignalTracked(a)) == DoSignalTracked(s, a)
  {
  }

  /** The processes a map tracks. */
  function Pids(m: map<Uuid, AgentHandle>): set<int> {
    set a | a in m && m[a].pid != 0 :: m[a].pid
  }

  lemma PidsMore(m: map<Uuid, AgentHandle>, todo: set<Uuid>, a: Uuid)
    requires a in todo && a in m
    ensures Pids(m - (todo - {a})) == Pids(m - todo) + (if m[a].pid == 0 then {} else {m[a].pid})
  {
    var big, small := m - (todo - {a}), m - todo;
    assert forall b :: b in big <==> b in small || b == a;
    forall p
      ensures p in Pids(big) <==> p in Pids(small) || (p == m[a].pid && p != 0)
    {
      if p == m[a].pid && p != 0 {
        assert a in big && big[a].pid == p;
      }
      if p in Pids(small) {
        var b :| b in small && small[b].pid == p;
        assert b in big && big[b].pid == p;
      }
    }
  }
}
