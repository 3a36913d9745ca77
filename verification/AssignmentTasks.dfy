/**
 * One task among concurrent AssignTaskToAgent calls (src/internal/service/assignment.go): when its
 * history replays, and which agent it is left with.
 */
module AssignmentTasks {
  import opened Specs
  import opened Assignments
  import opened AssignmentRaces

  // ------------------------------------------------------------------ the last write of the assignee

  /** A write of a task's assignee: by the call that created a row, or by UpdateTask. */
  datatype Write = ByCall(row: Uuid) | ByPatch(agent: Uuid)

  /** What a step writes to the task's assignee, if anything. */
  function Written(s: System, step: Step, t: Uuid): Option<Write> {
    match step
    case Advance(i) =>
      if Enabled(s, step) && s.calls[i].Writing? && s.calls[i].q.task == t
      then Some(ByCall(s.calls[i].q.rowId))
      else None
    case PatchTask(u, agent) => if u == t && t in s.db.tasks && agent != NIL then Some(ByPatch(agent)) else None
    case Begin(_) => None
  }

  function LastWrite(db: Db, steps: seq<Step>, t: Uuid): Option<Write> {
    if steps == [] then None
    else
      var front, step := steps[..|steps| - 1], steps[|steps| - 1];
      var w := Written(Run(Start(db), front), step, t);
      if w.Some? then w else LastWrite(db, front, t)
  }

  /** The agent that a write gave the task. */
  predicate Gives(db: Db, t: Uuid, w: Option<Write>, agent: Uuid) {
    match w
    case None => agent == NIL
    case Some(ByCall(r)) => r in db.rows && db.rows[r].task == t && db.rows[r].agent == agent
    case Some(ByPatch(a)) => agent == a
  }

  /** Rows stay, with their task and agent, and so does the set of tasks. */
  predicate Lasts(db: Db, db': Db) {
    && (forall r :: r in db.rows ==> r in db'.rows && SameRow(db'.rows[r], db.rows[r]))
    && db'.tasks.Keys == db.tasks.Keys && db'.agents == db.agents
  }

  /** Every call past its check is on a task that there is. */
  ghost predicate KnownTasks(s: System) {
    forall i :: 0 <= i < |s.calls| && !s.calls[i].Finished? && !s.calls[i].Begun? ==> s.calls[i].q.task in s.db.tasks
  }

  lemma AdvanceLasts(s: System, i: nat)
    requires Safe(s) && KnownTasks(s) && Enabled(s, Advance(i))
    ensures var u := DoAdvance(s, i); Lasts(s.db, u.db) && KnownTasks(u)
  {
    hide IndexExact, OriginsSound, EventsSound, Append;
    if s.calls[i].Appending? {
      AppendLeaves(s.db, NewEvent(s.calls[i].q, s.calls[i].q.rowId, s.calls[i].action));
    }
  }

  lemma AppendLeaves(db: Db, e: Event)
    ensures var d := Append(db, e);
      d.tasks == db.tasks && d.agents == db.agents && d.rows == db.rows && d.active == db.active
  {
  }

  lemma StepLasts(s: System, step: Step)
    requires Safe(s) && KnownTasks(s) && Enabled(s, step)
    ensures Lasts(s.db, Do(s, step).db) && KnownTasks(Do(s, step))
  {
    match step {
      case Advance(i) => AdvanceLasts(s, i);
      case _ =>
    }
  }

  /** What one step does to the assignee. */
  lemma StepWrites(s: System, step: Step, t: Uuid)
    requires Safe(s) && KnownTasks(s) && Enabled(s, step) && t in s.db.tasks
    ensures var u, w := Do(s, step), Written(s, step, t);
      t in u.db.tasks && if w.Some? then Gives(u.db, t, w, u.db.tasks[t]) else u.db.tasks[t] == s.db.tasks[t]
  {
    StepLasts(s, step);
    if step.Advance? && s.calls[step.i].Appending? {
      AppendLeaves(s.db, NewEvent(s.calls[step.i].q, s.calls[step.i].q.rowId, s.calls[step.i].action));
    }
    hide IndexExact, OriginsSound, EventsSound, RowsSound, Append, EventsOf;
  }

  lemma GivesLasts(db: Db, db': Db, t: Uuid, w: Option<Write>, agent: Uuid)
    requires Gives(db, t, w, agent) && Lasts(db, db')
    ensures Gives(db', t, w, agent)
  {
  }

  /** A task's assignee is the agent of its last write, in every run. */
  lemma {:induction false} AssigneeIsLastWritten(db: Db, steps: seq<Step>, t: Uuid)
    requires Unassigned(db) && t in db.tasks
    ensures var s := Run(Start(db), steps);
      t in s.db.tasks && KnownTasks(s) && s.db.agents == db.agents
          && Gives(s.db, t, LastWrite(db, steps, t), s.db.tasks[t])
  {
    if steps != [] {
      var front, step := steps[..|steps| - 1], steps[|steps| - 1];
      var s := Run(Start(db), front);
      AssigneeIsLastWritten(db, front, t);
      SafeAlways(db, front);
      if Enabled(s, step) {
        StepLasts(s, step);
        StepWrites(s, step, t);
        if Written(s, step, t).None? {
          GivesLasts(s.db, Do(s, step).db, t, LastWrite(db, front, t), s.db.tasks[t]);
        }
      }
      hide Safe, Enabled, Do, Gives, Lasts, KnownTasks, Unassigned;
    }
  }

  /**
   * In any run: the assignee of a task with an active row is that row's agent if and only if the last
   * write of the assignee gave that agent. When the task's rows are of different agents and nobody
   * patched it last, that is so exactly if the last write was by the call that created the active row.
   */
  lemma AssigneeAgreesExactly(db: Db, steps: seq<Step>, t: Uuid)
    requires Unassigned(db) && t in db.tasks && t in Run(Start(db), steps).db.active
    ensures var s, w := Run(Start(db), steps), LastWrite(db, steps, t);
      var r := s.db.active[t];
      && r in s.db.rows && s.db.rows[r].status == Active && t in s.db.tasks
      && (s.db.tasks[t] == s.db.rows[r].agent <==> Gives(s.db, t, w, s.db.rows[r].agent))
      && ((forall a, b :: a in s.db.rows && b in s.db.rows && s.db.rows[a].task == t && s.db.rows[b].task == t && a != b
             ==> s.db.rows[a].agent != s.db.rows[b].agent)
          && !(w.Some? && w.value.ByPatch?)
          ==> (s.db.tasks[t] == s.db.rows[r].agent <==> w == Some(ByCall(r))))
  {
    SafeAlways(db, steps);
    AssigneeIsLastWritten(db, steps, t);
    hide Run, LastWrite, CallsSound, OriginsSound, EventsSound;
  }

  // ------------------------------------------------------------------ a task whose own calls do not overlap

  predicate On(call: Call, t: Uuid) {
    !call.Finished? && call.q.task == t
  }

  ghost predicate Single(s: System, t: Uuid) {
    forall i, j :: 0 <= i < j < |s.calls| ==> !(On(s.calls[i], t) && On(s.calls[j], t))
  }

  /** The task's calls never overlap and UpdateTask leaves its assignee alone; other tasks are free. */
  ghost predicate Apart(db: Db, steps: seq<Step>, t: Uuid) {
    && (forall k :: 0 <= k <= |steps| ==> Single(Run(Start(db), steps[..k]), t))
    && forall step :: step in steps && step.PatchTask? && step.t == t ==> step.agent == NIL
  }

  /** A row of the history once a call that began at its end has superseded the last one. */
  function ClosedRow(es: seq<Event>, k: nat, now: int): Row
    requires k < |es|
  {
    if k + 1 < |es| then RowOf(es, k) else RowOf(es, k).(status := Superseded, completedAt := Some(now))
  }

  predicate Assignee(db: Db, t: Uuid, es: seq<Event>) {
    t in db.tasks && db.tasks[t] == if es == [] then NIL else es[|es| - 1].agent
  }

  /** The part of `Replays` that is about the events alone. */
  predicate Told(es: seq<Event>, t: Uuid) {
    && (forall k :: 0 <= k < |es| ==>
         es[k].task == t && es[k].agent != NIL && es[k].action == (if k == 0 then Assign else Reassign))
    && (forall k :: 0 < k < |es| ==> es[k].agent != es[k - 1].agent)
    && (forall j, k :: 0 <= j < k < |es| ==> es[j].assignmentId != es[k].assignmentId)
  }

  predicate ClosedRows(db: Db, es: seq<Event>, now: int) {
    forall k :: 0 <= k < |es| ==> es[k].assignmentId in db.rows && db.rows[es[k].assignmentId] == ClosedRow(es, k, now)
  }

  /** The call has chosen its action by the task's present assignee. */
  predicate Chosen(db: Db, t: Uuid, q: Request, action: Action) {
    t in db.tasks && action == ActionFor(db.tasks[t]) && q.agent != db.tasks[t] && q.agent != NIL
  }

  /** No active row: the last one is superseded, or there never was one. */
  predicate Opened(db: Db, t: Uuid, q: Request) {
    var es := EventsOf(db, t);
    Told(es, t) && Assignee(db, t, es) && t !in db.active && ClosedRows(db, es, q.now)
  }

  /** The new row is there and its event is not. */
  predicate Made(db: Db, t: Uuid, q: Request) {
    var es := EventsOf(db, t);
    && Told(es, t) && Assignee(db, t, es) && ClosedRows(db, es, q.now)
    && t in db.active && db.active[t] == q.rowId && q.rowId in db.rows && db.rows[q.rowId] == NewRow(q)
    && forall k :: 0 <= k < |es| ==> es[k].assignmentId != q.rowId
  }

  /** All but the assignee is written. */
  ghost predicate Logged(db: Db, t: Uuid, q: Request) {
    t in db.tasks && Replays(db.(tasks := db.tasks[t := q.agent]), t)
  }

  /** How far the task's tables are when its one running call stands at `call`. */
  ghost predicate Stage(db: Db, t: Uuid, call: Call) {
    match call
    case Begun(q) => Replays(db, t)
    case Looking(q, action) => Replays(db, t) && Chosen(db, t, q, action)
    case Superseding(q, action, prev) =>
      var es := EventsOf(db, t);
      Replays(db, t) && Chosen(db, t, q, action) && es != [] && prev == RowOf(es, |es| - 1)
    case Creating(q, action) => Opened(db, t, q) && Chosen(db, t, q, action)
    case Appending(q, action) => Made(db, t, q) && Chosen(db, t, q, action)
    case Writing(q, _) => Logged(db, t, q)
    case Finished(_) => Replays(db, t)
  }

  /** Nothing that the task's stage speaks of has changed. */
  predicate Elsewhere(db: Db, db': Db, t: Uuid) {
    && t in db.tasks && t in db'.tasks && db'.tasks[t] == db.tasks[t]
    && (t in db.active <==> t in db'.active) && (t in db.active ==> db'.active[t] == db.active[t])
    && EventsOf(db', t) == EventsOf(db, t)
    && forall r :: r in db.rows && db.rows[r].task == t ==> r in db'.rows && db'.rows[r] == db.rows[r]
  }

  lemma ReplaysElsewhere(db: Db, db': Db, t: Uuid)
    requires Replays(db, t) && Elsewhere(db, db', t)
    ensures Replays(db', t)
  {
    var es := EventsOf(db, t);
    hide EventsOf;
    forall k | 0 <= k < |es|
      ensures es[k].assignmentId in db'.rows && db'.rows[es[k].assignmentId] == RowOf(es, k)
    {
      assert db.rows[es[k].assignmentId].task == t;
    }
  }

  lemma ClosedElsewhere(db: Db, db': Db, t: Uuid, now: int)
    requires Told(EventsOf(db, t), t) && ClosedRows(db, EventsOf(db, t), now) && Elsewhere(db, db', t)
    ensures ClosedRows(db', EventsOf(db, t), now)
  {
    var es := EventsOf(db, t);
    hide EventsOf;
    forall k | 0 <= k < |es|
      ensures es[k].assignmentId in db'.rows && db'.rows[es[k].assignmentId] == ClosedRow(es, k, now)
    {
      assert db.rows[es[k].assignmentId].task == t;
    }
  }

  lemma StageElsewhere(db: Db, db': Db, t: Uuid, call: Call)
    requires Stage(db, t, call) && Elsewhere(db, db', t) && On(call, t)
    ensures Stage(db', t, call)
  {
    match call {
      case Begun(_) => ReplaysElsewhere(db, db', t);
      case Looking(_, _) => ReplaysElsewhere(db, db', t);
      case Superseding(_, _, _) => ReplaysElsewhere(db, db', t);
      case Creating(q, _) => ClosedElsewhere(db, db', t, q.now);
      case Appending(q, _) => ClosedElsewhere(db, db', t, q.now);
      case Writing(q, _) => ReplaysElsewhere(db.(tasks := db.tasks[t := q.agent]),
          db'.(tasks := db'.tasks[t := q.agent]), t);
    }
    hide Replays, ClosedRows;
  }

  // The task's own call, step by step.

  lemma CheckStage(db: Db, t: Uuid, q: Request)
    requires Replays(db, t) && q.task == t && t in db.tasks && NIL !in db.agents
    ensures Stage(db, t, Check(db, q))
  {
    hide Replays;
  }

  lemma LookStage(db: Db, t: Uuid, q: Request, action: Action)
    requires Replays(db, t) && Chosen(db, t, q, action) && q.task == t
    ensures Stage(db, t, Look(db, q, action))
  {
    var es := EventsOf(db, t);
    if es != [] {
      assert db.rows[es[|es| - 1].assignmentId] == RowOf(es, |es| - 1);
    }
  }

  lemma SupersedeStage(db: Db, t: Uuid, q: Request, action: Action, prev: Row)
    requires Stage(db, t, Superseding(q, action, prev)) && q.task == t && NIL !in db.rows
    ensures var r := UpdateRow(db, prev.(status := Superseded, completedAt := Some(q.now)));
      r.Ok? && Stage(r.db, t, Creating(q, action))
  {
    var es := EventsOf(db, t);
    var last := es[|es| - 1];
    assert db.rows[last.assignmentId] == RowOf(es, |es| - 1);
    var d := UpdateRow(db, prev.(status := Superseded, completedAt := Some(q.now))).db;
    assert EventsOf(d, t) == es;
    forall k | 0 <= k < |es|
      ensures es[k].assignmentId in d.rows && d.rows[es[k].assignmentId] == ClosedRow(es, k, q.now)
    {
      assert k < |es| - 1 ==> es[k].assignmentId != last.assignmentId && db.rows[es[k].assignmentId] == RowOf(es, k);
    }
  }

  lemma CreateStage(db: Db, t: Uuid, q: Request, action: Action)
    requires Stage(db, t, Creating(q, action)) && q.task == t && t != NIL && FreshIds(db, q)
    ensures var r := CreateRow(db, NewRow(q));
      r.Ok? && Stage(r.db, t, Appending(q, action))
  {
    var es, d := EventsOf(db, t), CreateRow(db, NewRow(q)).db;
    assert EventsOf(d, t) == es;
    hide EventsOf, Told, Assignee;
  }

  lemma AppendStage(db: Db, t: Uuid, q: Request, action: Action)
    requires Stage(db, t, Appending(q, action)) && q.task == t
    ensures Stage(Append(db, NewEvent(q, q.rowId, action)), t, Writing(q, action))
  {
    var es, e := EventsOf(db, t), NewEvent(q, q.rowId, action);
    var d := Append(db, e);
    var u := d.(tasks := d.tasks[t := q.agent]);
    var more := es + [e];
    assert EventsOf(u, t) == more && u.rows == db.rows && u.active == db.active;
    assert forall k :: 0 <= k < |es| ==> more[k] == es[k];
    hide EventsOf, Append;
    forall k | 0 <= k < |more|
      ensures more[k].assignmentId in u.rows && u.rows[more[k].assignmentId] == RowOf(more, k)
    {
      assert k < |es| ==> db.rows[es[k].assignmentId] == ClosedRow(es, k, q.now);
    }
  }

  // ------------------------------------------------------------------ all calls together

  /** The running call of the task, if any, is at its stage; without one the history replays. */
  ghost predicate Staged(s: System, t: Uuid) {
    && (forall i :: 0 <= i < |s.calls| && On(s.calls[i], t) ==> Stage(s.db, t, s.calls[i]))
    && ((forall i :: 0 <= i < |s.calls| ==> !On(s.calls[i], t)) ==> Replays(s.db, t))
  }

  lemma OwnStage(db: Db, t: Uuid, call: Call)
    requires On(call, t) && Stage(db, t, call) && (call.Creating? ==> FreshIds(db, call.q))
    requires t in db.tasks && t != NIL && NIL !in db.agents && NIL !in db.rows
    ensures var call' := NextCall(db, call); Stage(NextDb(db, call), t, call') && (call'.Finished? || On(call', t))
  {
    match call {
      case Begun(q) => CheckStage(db, t, q);
      case Looking(q, action) => LookStage(db, t, q, action);
      case Superseding(q, action, prev) => SupersedeStage(db, t, q, action, prev);
      case Creating(q, action) => CreateStage(db, t, q, action);
      case Appending(q, action) => AppendStage(db, t, q, action);
      case Writing(q, action) =>
    }
    hide Replays, Opened, Made, UpdateRow, CreateRow, Append, Chosen;
  }

  lemma OwnStep(s: System, t: Uuid, i: nat)
    requires Safe(s) && Enabled(s, Advance(i)) && On(s.calls[i], t) && Stage(s.db, t, s.calls[i])
    requires t in s.db.tasks && t != NIL && NIL !in s.db.agents
    ensures var u := DoAdvance(s, i);
      && |u.calls| == |s.calls| && Stage(u.db, t, u.calls[i]) && (u.calls[i].Finished? || On(u.calls[i], t))
      && forall j :: 0 <= j < |s.calls| && j != i ==> u.calls[j] == s.calls[j]
  {
    assert NIL !in s.db.rows;
    OwnStage(s.db, t, s.calls[i]);
    hide Safe, Stage, NextCall, NextDb;
    TryAdvance(s, i);
    hide UpdateRow, CreateRow, Append, Check, Look;
  }

  /** A step of a call on another task. */
  lemma OtherStep(s: System, t: Uuid, i: nat)
    requires Safe(s) && Enabled(s, Advance(i)) && !On(s.calls[i], t) && t in s.db.tasks
    ensures var u := DoAdvance(s, i);
      && Elsewhere(s.db, u.db, t) && |u.calls| == |s.calls| && !On(u.calls[i], t)
      && forall j :: 0 <= j < |s.calls| && j != i ==> u.calls[j] == s.calls[j]
  {
    hide IndexExact, OriginsSound, EventsSound;
  }

  lemma StepStaged(s: System, t: Uuid, step: Step)
    requires Safe(s) && Staged(s, t) && Single(s, t) && Enabled(s, step) && Single(Do(s, step), t)
    requires t in s.db.tasks && t != NIL && NIL !in s.db.agents
      && (step.PatchTask? && step.t == t ==> step.agent == NIL)
    ensures Staged(Do(s, step), t)
  {
    var u := Do(s, step);
    match step {
      case Begin(q) =>
        BeginStaged(s, t, q);
      case Advance(i) =>
        if On(s.calls[i], t) {
          OwnStep(s, t, i);
          OwnStaged(s, u, t, i);
        } else {
          OtherStep(s, t, i);
          OthersStaged(s, u, t, i);
        }
      case PatchTask(_, _) =>
        assert Elsewhere(s.db, u.db, t);
        SameCallsStaged(s, u, t);
    }
  }

  lemma BeginStaged(s: System, t: Uuid, q: Request)
    requires Staged(s, t) && Single(Do(s, Begin(q)), t)
    ensures Staged(Do(s, Begin(q)), t)
  {
    var u := Do(s, Begin(q));
    assert forall i :: 0 <= i < |s.calls| ==> u.calls[i] == s.calls[i];
    if q.task == t {
      assert On(u.calls[|s.calls|], t);
      assert forall i :: 0 <= i < |s.calls| ==> !On(s.calls[i], t);
    } else {
      assert !On(u.calls[|s.calls|], t);
    }
    hide Stage, Replays;
    assert q.task == t ==> Stage(u.db, t, Begun(q)) by {
      BegunStage(u.db, t, q);
    }
  }

  lemma BegunStage(db: Db, t: Uuid, q: Request)
    ensures Stage(db, t, Begun(q)) <==> Replays(db, t)
  {
  }

  lemma OwnStaged(s: System, u: System, t: Uuid, i: nat)
    requires Single(s, t) && i < |s.calls| == |u.calls| && On(s.calls[i], t) && Stage(u.db, t, u.calls[i])
    requires u.calls[i].Finished? || On(u.calls[i], t)
    requires forall j :: 0 <= j < |s.calls| && j != i ==> u.calls[j] == s.calls[j]
    ensures Staged(u, t)
  {
    assert forall j :: 0 <= j < |s.calls| && j != i ==> !On(u.calls[j], t);
    FinishedStage(u.db, t, u.calls[i]);
    hide Stage, Replays;
  }

  lemma FinishedStage(db: Db, t: Uuid, call: Call)
    requires Stage(db, t, call)
    ensures call.Finished? ==> Replays(db, t)
  {
  }

  lemma OthersStaged(s: System, u: System, t: Uuid, i: nat)
    requires Staged(s, t) && Elsewhere(s.db, u.db, t) && i < |s.calls| == |u.calls|
    requires !On(s.calls[i], t) && !On(u.calls[i], t) && forall j :: 0 <= j < |s.calls| && j != i ==>
      u.calls[j] == s.calls[j]
    ensures Staged(u, t)
  {
    forall j | 0 <= j < |u.calls| && On(u.calls[j], t)
      ensures Stage(u.db, t, u.calls[j])
    {
      StageElsewhere(s.db, u.db, t, s.calls[j]);
    }
    if Replays(s.db, t) {
      ReplaysElsewhere(s.db, u.db, t);
    }
    hide Stage, Replays, Elsewhere;
    assert (forall j :: 0 <= j < |u.calls| ==> !On(u.calls[j], t)) ==> forall j :: 0 <= j < |s.calls| ==>
        !On(s.calls[j], t);
  }

  lemma SameCallsStaged(s: System, u: System, t: Uuid)
    requires Staged(s, t) && Elsewhere(s.db, u.db, t) && u.calls == s.calls
    ensures Staged(u, t)
  {
    forall j | 0 <= j < |u.calls| && On(u.calls[j], t)
      ensures Stage(u.db, t, u.calls[j])
    {
      StageElsewhere(s.db, u.db, t, s.calls[j]);
    }
    if Replays(s.db, t) {
      ReplaysElsewhere(s.db, u.db, t);
    }
    hide Stage, Replays, Elsewhere;
  }

  lemma {:induction false} StagedAlways(db: Db, steps: seq<Step>, t: Uuid)
    requires Unassigned(db) && t in db.tasks && Apart(db, steps, t)
    ensures Staged(Run(Start(db), steps), t)
  {
    if steps != [] {
      var front, step := steps[..|steps| - 1], steps[|steps| - 1];
      var s := Run(Start(db), front);
      ApartFront(db, steps, t);
      StagedAlways(db, front, t);
      SafeAlways(db, front);
      AssigneeIsLastWritten(db, front, t);
      if Enabled(s, step) {
        StepStaged(s, t, step);
      }
      hide Safe, Staged, Enabled, Do, Gives, KnownTasks;
    }
  }

  lemma ApartFront(db: Db, steps: seq<Step>, t: Uuid)
    requires Apart(db, steps, t) && steps != []
    ensures var front := steps[..|steps| - 1];
      && Apart(db, front, t) && Single(Run(Start(db), front), t) && Single(Run(Start(db), steps), t)
    ensures var step := steps[|steps| - 1]; step.PatchTask? && step.t == t ==> step.agent == NIL
  {
    var front := steps[..|steps| - 1];
    assert forall k :: 0 <= k <= |front| ==> front[..k] == steps[..k];
    assert steps[..|steps|] == steps && front[..|front|] == front;
    assert steps[|steps| - 1] in steps && forall step :: step in front ==> step in steps;
    hide Run, Single;
    assert forall k :: 0 <= k <= |front| ==> Single(Run(Start(db), steps[..k]), t);
  }

  /**
   * In any run in which the calls on a task do not overlap each other and UpdateTask does not touch its
   * assignee, the task's history replays to its state whenever none of its calls is running, whatever
   * the calls on other tasks do at the same time.
   */
  lemma LoneTaskReplays(db: Db, steps: seq<Step>, t: Uuid)
    requires Unassigned(db) && t in db.tasks && Apart(db, steps, t)
    requires var s := Run(Start(db), steps); forall i :: 0 <= i < |s.calls| ==> !On(s.calls[i], t)
    ensures Replays(Run(Start(db), steps).db, t)
  {
    StagedAlways(db, steps, t);
  }
}
