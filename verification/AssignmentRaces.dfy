/**
 * Any number of AssignTaskToAgent calls at once (src/internal/service/assignment.go over
 * src/internal/store/memory.go): each store call is one step, and the calls interleave between them.
 */
module AssignmentRaces {
  import opened Specs
  import opened Assignments

  /** A call between two of its steps. */
  datatype Call =
    | Begun(q: Request)
    | Looking(q: Request, action: Action)                    // action chosen, GetActiveByTask ahead
    | Superseding(q: Request, action: Action, prev: Row)     // holds a copy of the active row
    | Creating(q: Request, action: Action)
    | Appending(q: Request, action: Action)                  // row created, event ahead
    | Writing(q: Request, action: Action)                    // event appended, task's assignee ahead
    | Finished(reply: Reply)

  /** Where a row's event is: still with the call that created the row, or at a place in its task's history. */
  datatype Origin = WithCall(call: nat) | At(k: nat)

  /** `origin` is history. */
  datatype System = System(db: Db, calls: seq<Call>, origin: map<Uuid, Origin>)

  datatype Step = Begin(q: Request) | Advance(i: nat) | PatchTask(t: Uuid, agent: Uuid)

  /** Ids are fresh when a row is created. */
  predicate Enabled(s: System, step: Step) {
    match step
    case Begin(_) => true
    case Advance(i) => i < |s.calls| && !s.calls[i].Finished? && (s.calls[i].Creating? ==> FreshIds(s.db, s.calls[i].q))
    case PatchTask(_, _) => true
  }

  function Goto(s: System, i: nat, call: Call): System
    requires i < |s.calls|
  {
    s.(calls := s.calls[i := call])
  }

  function Check(db: Db, q: Request): Call {
    if q.task !in db.tasks then Finished(TaskNotFound)
    else if q.agent !in db.agents then Finished(AgentNotFound)
    else if !q.eligible then Finished(NotEligible)
    else if db.tasks[q.task] == q.agent then Finished(Idempotent(GetActive(db, q.task)))
    else Looking(q, ActionFor(db.tasks[q.task]))
  }

  function Look(db: Db, q: Request, action: Action): Call {
    var prev := GetActive(db, q.task);
    if prev.Some? then Superseding(q, action, prev.value) else Creating(q, action)
  }

  function DoSupersede(s: System, i: nat): System
    requires i < |s.calls| && s.calls[i].Superseding?
  {
    var call := s.calls[i];
    var r := UpdateRow(s.db, call.prev.(status := Superseded, completedAt := Some(call.q.now)));
    if r.Ok? then Goto(s, i, Creating(call.q, call.action)).(db := r.db) else Goto(s, i, Finished(Internal))
  }

  function DoCreate(s: System, i: nat): System
    requires i < |s.calls| && s.calls[i].Creating?
  {
    var call := s.calls[i];
    var r := CreateRow(s.db, NewRow(call.q));
    if r.Ok?
    then Goto(s, i, Appending(call.q, call.action)).(db := r.db, origin := s.origin[call.q.rowId := WithCall(i)])
    else Goto(s, i, Finished(if r.error == AlreadyExists then Race else Internal))
  }

  function DoAppend(s: System, i: nat): System
    requires i < |s.calls| && s.calls[i].Appending?
  {
    var call := s.calls[i];
    Goto(s, i, Writing(call.q, call.action)).(
      db := Append(s.db, NewEvent(call.q, call.q.rowId, call.action)),
      origin := s.origin[call.q.rowId := At(|EventsOf(s.db, call.q.task)|)])
  }

  function DoWrite(s: System, i: nat): System
    requires i < |s.calls| && s.calls[i].Writing?
  {
    var call := s.calls[i];
    Goto(s, i, Finished(Assigned(NewRow(call.q), NewEvent(call.q, call.q.rowId, call.action)))).(
      db := s.db.(tasks := s.db.tasks[call.q.task := call.q.agent]))
  }

  function DoAdvance(s: System, i: nat): System
    requires Enabled(s, Advance(i))
  {
    match s.calls[i]
    case Begun(q) => Goto(s, i, Check(s.db, q))
    case Looking(q, action) => Goto(s, i, Look(s.db, q, action))
    case Superseding(_, _, _) => DoSupersede(s, i)
    case Creating(_, _) => DoCreate(s, i)
    case Appending(_, _) => DoAppend(s, i)
    case Writing(_, _) => DoWrite(s, i)
  }

  function Do(s: System, step: Step): System
    requires Enabled(s, step)
  {
    match step
    case Begin(q) => s.(calls := s.calls + [Begun(q)])
    case Advance(i) => DoAdvance(s, i)
    case PatchTask(t, agent) => s.(db := PatchAssignee(s.db, t, agent))
  }

  function Try(s: System, step: Step): System {
    if Enabled(s, step) then Do(s, step) else s
  }

  /** The state after trying `steps` in order; a step that is not enabled changes nothing. */
  function Run(s: System, steps: seq<Step>): System {
    if steps == [] then s else Try(Run(s, steps[..|steps| - 1]), steps[|steps| - 1])
  }

  // ------------------------------------------------------------------ the invariant

  /** What never changes in a row agrees. */
  predicate SameRow(a: Row, b: Row) {
    a.id == b.id && a.task == b.task && a.agent == b.agent && a.assignedAt == b.assignedAt
  }

  ghost predicate RowsSound(s: System) {
    && s.origin.Keys == s.db.rows.Keys
    && forall r :: r in s.db.rows ==>
         var row := s.db.rows[r];
         row.id == r && r != NIL && row.agent != NIL
             && (if row.completedAt.None? then row.status == Active else row.status == Superseded)
  }

  ghost predicate CallsSound(s: System) {
    forall i :: 0 <= i < |s.calls| ==>
      match s.calls[i]
      case Superseding(q, _, prev) => prev.task == q.task && prev.id in s.db.rows && SameRow(prev, s.db.rows[prev.id])
      case Appending(q, _) =>
        q.rowId in s.db.rows && q.rowId in s.origin && SameRow(NewRow(q), s.db.rows[q.rowId])
            && s.origin[q.rowId] == WithCall(i)
      case Writing(q, _) => q.rowId in s.db.rows && SameRow(NewRow(q), s.db.rows[q.rowId])
      case _ => true
  }

  predicate OriginSound(o: Origin, calls: seq<Call>, es: seq<Event>, r: Uuid) {
    match o
    case WithCall(i) => i < |calls| && calls[i].Appending? && calls[i].q.rowId == r
    case At(k) => k < |es| && es[k].assignmentId == r
  }

  ghost predicate OriginsSound(s: System) {
    forall r :: r in s.origin && r in s.db.rows ==>
        OriginSound(s.origin[r], s.calls, EventsOf(s.db, s.db.rows[r].task), r)
  }

  predicate EventSound(rows: map<Uuid, Row>, origin: map<Uuid, Origin>, t: Uuid, k: nat, e: Event) {
    && e.task == t && e.assignmentId in rows && e.assignmentId in origin && origin[e.assignmentId] == At(k)
    && SameRow(Row(e.assignmentId, t, e.agent, e.assignedAt, None, Active), rows[e.assignmentId])
  }

  ghost predicate TaskEventsSound(es: seq<Event>, rows: map<Uuid, Row>, origin: map<Uuid, Origin>, t: Uuid) {
    forall k :: 0 <= k < |es| ==> EventSound(rows, origin, t, k, es[k])
  }

  ghost predicate EventsSound(s: System) {
    forall t :: TaskEventsSound(EventsOf(s.db, t), s.db.rows, s.origin, t)
  }

  ghost predicate Safe(s: System) {
    IndexExact(s.db) && RowsSound(s) && CallsSound(s) && OriginsSound(s) && EventsSound(s)
  }

  /** A step that moves one call on and leaves rows, index, events and origins alone. */
  lemma MoveKeeps(s: System, i: nat, call: Call)
    requires Safe(s) && i < |s.calls| && !s.calls[i].Appending? && !call.Appending? && !call.Writing?
    requires call.Superseding? ==>
      call.prev.task == call.q.task && call.prev.id in s.db.rows && SameRow(call.prev, s.db.rows[call.prev.id])
    ensures Safe(Goto(s, i, call))
  {
    hide IndexExact;
  }

  /** Only the tasks table changes. */
  lemma TasksKeep(s: System, tasks: map<Uuid, Uuid>)
    requires Safe(s)
    ensures Safe(s.(db := s.db.(tasks := tasks)))
  {
    var t := s.(db := s.db.(tasks := tasks));
    assert forall u :: EventsOf(t.db, u) == EventsOf(s.db, u);
    hide EventsOf;
  }

  lemma SupersedeKeeps(s: System, i: nat)
    requires Safe(s) && i < |s.calls| && s.calls[i].Superseding?
    ensures Safe(DoSupersede(s, i))
  {
    var call := s.calls[i];
    var row := call.prev.(status := Superseded, completedAt := Some(call.q.now));
    assert call.prev.id in s.db.rows && SameRow(call.prev, s.db.rows[call.prev.id]);
    ApplyKeepsIndex(s.db, Update(row));
    var u := s.(db := s.db.(rows := s.db.rows[row.id := row], active := DoSupersede(s, i).db.active));
    assert UpdateRow(s.db, row).Ok?;
    assert DoSupersede(s, i) == Goto(u, i, Creating(call.q, call.action));
    RowKeeps(s, u, row);
    MoveKeeps(u, i, Creating(call.q, call.action)) by {
      hide UpdateRow;
    }
    hide Safe;
  }

  /** A row is overwritten by one that is the same up to being superseded. */
  lemma RowKeeps(s: System, u: System, row: Row)
    requires Safe(s) && IndexExact(u.db)
    requires row.id in s.db.rows && SameRow(row, s.db.rows[row.id]) && row.status == Superseded && row.completedAt.Some?
    requires u == s.(db := s.db.(rows := s.db.rows[row.id := row], active := u.db.active))
    ensures Safe(u)
  {
    assert forall t :: EventsOf(u.db, t) == EventsOf(s.db, t);
    RowsAndCallsKeep(s, u, row) by {
      hide IndexExact, EventsOf;
    }
    hide IndexExact, EventsOf, RowsSound, CallsSound, OriginsSound, EventsSound;
    SameEventsKeep(s, u);
    SameOriginsKeep(s, u);
  }

  lemma RowsAndCallsKeep(s: System, u: System, row: Row)
    requires RowsSound(s) && CallsSound(s)
    requires row.id in s.db.rows && SameRow(row, s.db.rows[row.id]) && row.status == Superseded && row.completedAt.Some?
    requires u == s.(db := s.db.(rows := s.db.rows[row.id := row], active := u.db.active))
    ensures RowsSound(u) && CallsSound(u) && u.db.rows.Keys == s.db.rows.Keys
    ensures forall r :: r in s.db.rows ==> SameRow(u.db.rows[r], s.db.rows[r])
  {
  }

  lemma SameOriginsKeep(s: System, u: System)
    requires OriginsSound(s) && forall t :: EventsOf(u.db, t) == EventsOf(s.db, t)
    requires u.db.rows.Keys == s.db.rows.Keys && forall r :: r in s.db.rows ==> SameRow(u.db.rows[r], s.db.rows[r])
    requires u.calls == s.calls && u.origin == s.origin
    ensures OriginsSound(u)
  {
    hide EventsOf;
    forall r | r in u.origin && r in u.db.rows
      ensures OriginSound(u.origin[r], u.calls, EventsOf(u.db, u.db.rows[r].task), r)
    {
      assert OriginSound(s.origin[r], s.calls, EventsOf(s.db, s.db.rows[r].task), r);
    }
  }

  /** Rows keep what never changes in them, and rows with an event keep their origin. */
  lemma SameEventsKeep(s: System, u: System)
    requires EventsSound(s) && forall t :: EventsOf(u.db, t) == EventsOf(s.db, t)
    requires forall r :: r in s.db.rows ==> r in u.db.rows && SameRow(u.db.rows[r], s.db.rows[r])
    requires forall r :: r in s.origin && s.origin[r].At? ==> r in u.origin && u.origin[r] == s.origin[r]
    ensures EventsSound(u)
  {
    hide EventsOf;
    forall t
      ensures TaskEventsSound(EventsOf(u.db, t), u.db.rows, u.origin, t)
    {
      assert TaskEventsSound(EventsOf(s.db, t), s.db.rows, s.origin, t);
    }
  }

  lemma CreateKeeps(s: System, i: nat)
    requires Safe(s) && Enabled(s, Advance(i)) && s.calls[i].Creating?
    ensures Safe(DoCreate(s, i))
  {
    var call := s.calls[i];
    if CreateRow(s.db, NewRow(call.q)).Ok? {
      ApplyKeepsIndex(s.db, Create(NewRow(call.q)));
      CreatedKeeps(s, DoCreate(s, i), i, call.q, call.action);
    } else {
      MoveKeeps(s, i, DoCreate(s, i).calls[i]);
    }
  }

  /** Call i has created its row. */
  predicate CreatedBy(s: System, u: System, i: nat, q: Request, action: Action) {
    && i < |s.calls| && s.calls[i] == Creating(q, action) && FreshIds(s.db, q) && q.agent != NIL
    && u == System(s.db.(rows := s.db.rows[q.rowId := NewRow(q)], active := u.db.active),
                   s.calls[i := Appending(q, action)], s.origin[q.rowId := WithCall(i)])
  }

  lemma CreatedKeeps(s: System, u: System, i: nat, q: Request, action: Action)
    requires Safe(s) && IndexExact(u.db) && CreatedBy(s, u, i, q, action)
    ensures Safe(u)
  {
    assert forall t :: EventsOf(u.db, t) == EventsOf(s.db, t);
    hide IndexExact, EventsOf, RowsSound, CallsSound, OriginsSound, EventsSound;
    CreatedKeepsRowsAndCalls(s, u, i, q, action);
    SameEventsKeep(s, u);
    CreatedKeepsOrigins(s, u, i, q, action);
  }

  lemma CreatedKeepsRowsAndCalls(s: System, u: System, i: nat, q: Request, action: Action)
    requires RowsSound(s) && CallsSound(s) && CreatedBy(s, u, i, q, action)
    ensures RowsSound(u) && CallsSound(u) && s.origin.Keys == s.db.rows.Keys
    ensures forall r :: r in s.db.rows ==> r in u.db.rows && SameRow(u.db.rows[r], s.db.rows[r])
    ensures forall r :: r in s.origin ==> r in u.origin && u.origin[r] == s.origin[r]
  {
  }

  lemma CreatedKeepsOrigins(s: System, u: System, i: nat, q: Request, action: Action)
    requires OriginsSound(s) && s.origin.Keys == s.db.rows.Keys && CreatedBy(s, u, i, q, action)
    ensures OriginsSound(u)
  {
    forall r | r in u.origin && r in u.db.rows
      ensures OriginSound(u.origin[r], u.calls, EventsOf(u.db, u.db.rows[r].task), r)
    {
      assert r != q.rowId ==> OriginSound(s.origin[r], s.calls, EventsOf(s.db, s.db.rows[r].task), r);
    }
  }

  lemma AppendKeepsEvents(s: System, i: nat)
    requires Safe(s) && i < |s.calls| && s.calls[i].Appending?
    ensures EventsSound(DoAppend(s, i))
  {
    var q, u := s.calls[i].q, DoAppend(s, i);
    var es, e := EventsOf(s.db, q.task), NewEvent(q, q.rowId, s.calls[i].action);
    assert SameRow(NewRow(q), s.db.rows[q.rowId]) && s.origin[q.rowId] == WithCall(i);
    hide IndexExact, OriginsSound, CallsSound, RowsSound;
    forall t
      ensures TaskEventsSound(EventsOf(u.db, t), u.db.rows, u.origin, t)
    {
      assert TaskEventsSound(EventsOf(s.db, t), s.db.rows, s.origin, t);
      assert EventsOf(u.db, t) == if t == q.task then es + [e] else EventsOf(s.db, t);
      assert EventSound(u.db.rows, u.origin, q.task, |es|, e);
    }
  }

  lemma AppendKeepsOrigins(s: System, i: nat)
    requires Safe(s) && i < |s.calls| && s.calls[i].Appending?
    ensures OriginsSound(DoAppend(s, i)) && CallsSound(DoAppend(s, i)) && RowsSound(DoAppend(s, i))
  {
    var q, u := s.calls[i].q, DoAppend(s, i);
    var es, e := EventsOf(s.db, q.task), NewEvent(q, q.rowId, s.calls[i].action);
    assert q.rowId in s.origin && s.origin[q.rowId] == WithCall(i) && SameRow(NewRow(q), s.db.rows[q.rowId]);
    hide IndexExact, EventsSound;
    forall r | r in u.origin && r in u.db.rows
      ensures OriginSound(u.origin[r], u.calls, EventsOf(u.db, u.db.rows[r].task), r)
    {
      assert OriginSound(s.origin[r], s.calls, EventsOf(s.db, s.db.rows[r].task), r);
      var t := u.db.rows[r].task;
      assert EventsOf(u.db, t) == if t == q.task then es + [e] else EventsOf(s.db, t);
    }
  }

  lemma AppendKeeps(s: System, i: nat)
    requires Safe(s) && i < |s.calls| && s.calls[i].Appending?
    ensures Safe(DoAppend(s, i))
  {
    AppendKeepsEvents(s, i);
    AppendKeepsOrigins(s, i);
    assert DoAppend(s, i).db.rows == s.db.rows && DoAppend(s, i).db.active == s.db.active;
    hide DoAppend, EventsSound, OriginsSound, CallsSound, RowsSound;
  }

  lemma AdvanceKeeps(s: System, i: nat)
    requires Safe(s) && Enabled(s, Advance(i))
    ensures Safe(DoAdvance(s, i))
  {
    match s.calls[i] {
      case Begun(q) => MoveKeeps(s, i, Check(s.db, q));
      case Looking(q, action) => MoveKeeps(s, i, Look(s.db, q, action));
      case Superseding(_, _, _) => SupersedeKeeps(s, i);
      case Creating(_, _) => CreateKeeps(s, i);
      case Appending(_, _) => AppendKeeps(s, i);
      case Writing(q, action) =>
        var reply := Assigned(NewRow(q), NewEvent(q, q.rowId, action));
        MoveKeeps(s, i, Finished(reply));
        TasksKeep(Goto(s, i, Finished(reply)), s.db.tasks[q.task := q.agent]);
    }
    hide Safe, DoSupersede, DoCreate, DoAppend;
  }

  lemma StepKeeps(s: System, step: Step)
    requires Safe(s) && Enabled(s, step)
    ensures Safe(Do(s, step))
  {
    match step {
      case Begin(q) =>
        hide IndexExact, EventsOf;
      case Advance(i) => AdvanceKeeps(s, i);
      case PatchTask(t, agent) =>
        TasksKeep(s, PatchAssignee(s.db, t, agent).tasks);
    }
  }

  function Start(db: Db): System {
    System(db, [], map[])
  }

  lemma {:induction false} SafeAlways(db: Db, steps: seq<Step>)
    requires Unassigned(db)
    ensures Safe(Run(Start(db), steps))
  {
    if steps != [] {
      SafeAlways(db, steps[..|steps| - 1]);
      var before, step := Run(Start(db), steps[..|steps| - 1]), steps[|steps| - 1];
      if Enabled(before, step) {
        StepKeeps(before, step);
      }
      hide Safe, Do, Enabled;
    }
  }

  // ------------------------------------------------------------------ what holds in every run

  predicate Creator(s: System, i: int, r: Uuid) {
    0 <= i < |s.calls| && s.calls[i].Appending? && s.calls[i].q.rowId == r
  }

  predicate EventAt(db: Db, t: Uuid, k: int, r: Uuid) {
    0 <= k < |EventsOf(db, t)| && EventsOf(db, t)[k].assignmentId == r
  }

  /**
   * Whatever the interleaving: every event names a row of its task and agent and no other event
   * names that row; every row has its event or a call about to append it, not both; a row is
   * completed exactly when it is not active; and a task has at most one active row, the one indexed.
   */
  lemma RowsAndEventsPair(db: Db, steps: seq<Step>)
    requires Unassigned(db)
    ensures var s := Run(Start(db), steps);
      && IndexExact(s.db)
      && (forall t, k, r :: EventAt(s.db, t, k, r) ==>
            r in s.db.rows && s.db.rows[r].task == t && s.db.rows[r].agent == EventsOf(s.db, t)[k].agent)
      && (forall t, u, j, k, r :: EventAt(s.db, t, j, r) && EventAt(s.db, u, k, r) ==> t == u && j == k)
      && (forall r :: r in s.db.rows ==>
            ((exists k :: EventAt(s.db, s.db.rows[r].task, k, r)) <==> !exists i :: Creator(s, i, r)))
      && (forall r :: r in s.db.rows ==> (s.db.rows[r].completedAt.None? <==> s.db.rows[r].status == Active))
  {
    SafeAlways(db, steps);
    var s := Run(Start(db), steps);
    hide Run, IndexExact;
    assert forall r :: r in s.db.rows ==> (s.db.rows[r].completedAt.None? <==> s.db.rows[r].status == Active);
    hide RowsSound;
    forall t, k, r | EventAt(s.db, t, k, r)
      ensures EventAnswers(s, t, k, r)
    {
      EventHasRow(s, t, k, r);
    }
    forall r | r in s.db.rows
      ensures (exists k :: EventAt(s.db, s.db.rows[r].task, k, r)) <==> !exists i :: Creator(s, i, r)
    {
      RowHasEvent(s, r);
    }
    hide Safe, EventAt, Creator;
  }

  /**
   * In every run a call that comes to create its row is told of a race if and only if the task has an
   * active row again; otherwise it goes on.
   */
  lemma RaceIsToldExactly(db: Db, steps: seq<Step>, i: nat)
    requires Unassigned(db)
    requires var s := Run(Start(db), steps);
      Enabled(s, Advance(i)) && s.calls[i].Creating? && s.calls[i].q.task != NIL && s.calls[i].q.agent != NIL
    ensures var s, t := Run(Start(db), steps), Run(Start(db), steps + [Advance(i)]);
      var q := s.calls[i].q;
      && |t.calls| == |s.calls|
      && t.calls[i] == (if exists r :: r in s.db.rows && s.db.rows[r].task == q.task && s.db.rows[r].status == Active
                        then Finished(Race) else Appending(q, s.calls[i].action))
  {
    assert (steps + [Advance(i)])[..|steps|] == steps;
    SafeAlways(db, steps);
    var s := Run(Start(db), steps);
    hide Run, RowsSound, CallsSound, OriginsSound, EventsSound;
    assert IndexExact(s.db);
    assert s.calls[i].q.task in s.db.active <==>
      exists r :: r in s.db.rows && s.db.rows[r].task == s.calls[i].q.task && s.db.rows[r].status == Active;
  }

  predicate EventAnswers(s: System, t: Uuid, k: nat, r: Uuid)
    requires EventAt(s.db, t, k, r)
  {
    && r in s.db.rows && s.db.rows[r].task == t && s.db.rows[r].agent == EventsOf(s.db, t)[k].agent
    && r in s.origin && s.origin[r] == At(k)
  }

  lemma EventHasRow(s: System, t: Uuid, k: nat, r: Uuid)
    requires Safe(s) && EventAt(s.db, t, k, r)
    ensures EventAnswers(s, t, k, r)
  {
    assert TaskEventsSound(EventsOf(s.db, t), s.db.rows, s.origin, t);
    assert EventSound(s.db.rows, s.origin, t, k, EventsOf(s.db, t)[k]);
  }

  lemma RowHasEvent(s: System, r: Uuid)
    requires Safe(s) && r in s.db.rows
    ensures (exists k :: EventAt(s.db, s.db.rows[r].task, k, r)) <==> !exists i :: Creator(s, i, r)
  {
    var t := s.db.rows[r].task;
    assert r in s.origin && OriginSound(s.origin[r], s.calls, EventsOf(s.db, t), r);
    if k :| EventAt(s.db, t, k, r) {
      EventHasRow(s, t, k, r);
    }
    match s.origin[r] {
      case WithCall(i) =>
        assert Creator(s, i, r);
      case At(k) =>
        assert EventAt(s.db, t, k, r);
    }
  }

  // ------------------------------------------------------------------ a call that meets no other

  /** The call's next program counter, and the tables after its next step. */
  function NextCall(db: Db, call: Call): Call {
    match call
    case Begun(q) => Check(db, q)
    case Looking(q, action) => Look(db, q, action)
    case Superseding(q, action, prev) =>
      if UpdateRow(db, prev.(status := Superseded, completedAt := Some(q.now))).Ok? then Creating(q, action)
          else Finished(Internal)
    case Creating(q, action) =>
      var r := CreateRow(db, NewRow(q));
      if r.Ok? then Appending(q, action) else Finished(if r.error == AlreadyExists then Race else Internal)
    case Appending(q, action) => Writing(q, action)
    case Writing(q, action) => Finished(Assigned(NewRow(q), NewEvent(q, q.rowId, action)))
    case Finished(reply) => call
  }

  function NextDb(db: Db, call: Call): Db {
    match call
    case Superseding(q, action, prev) =>
      var r := UpdateRow(db, prev.(status := Superseded, completedAt := Some(q.now)));
      if r.Ok? then r.db else db
    case Creating(q, action) =>
      var r := CreateRow(db, NewRow(q));
      if r.Ok? then r.db else db
    case Appending(q, action) => Append(db, NewEvent(q, q.rowId, action))
    case Writing(q, action) => db.(tasks := db.tasks[q.task := q.agent])
    case _ => db
  }

  lemma TryAdvance(s: System, i: nat)
    requires i < |s.calls| && (s.calls[i].Creating? ==> FreshIds(s.db, s.calls[i].q))
    ensures var u := Try(s, Advance(i));
      |u.calls| == |s.calls| && u.calls[i] == NextCall(s.db, s.calls[i]) && u.db == NextDb(s.db, s.calls[i])
  {
    hide UpdateRow, CreateRow, Append, Check, Look;
  }

  /** `n` steps of call `i` in a row. */
  function Alone(s: System, i: nat, n: nat): System {
    if n == 0 then s else Try(Alone(s, i, n - 1), Advance(i))
  }

  lemma {:induction false} FinishedStays(s: System, i: nat, n: nat)
    requires i < |s.calls| && s.calls[i].Finished?
    ensures Alone(s, i, n) == s
  {
    if n > 0 {
      FinishedStays(s, i, n - 1);
    }
  }

  lemma {:induction false} AloneSplits(s: System, i: nat, n: nat)
    ensures Alone(s, i, n + 1) == Alone(Try(s, Advance(i)), i, n)
  {
    if n > 0 {
      AloneSplits(s, i, n - 1);
    }
  }

  /** The three last steps: create the row, append its event, write the task. */
  lemma CreateToEnd(s: System, i: nat, q: Request, action: Action)
    requires i < |s.calls| && s.calls[i] == Creating(q, action) && FreshIds(s.db, q)
    ensures var u, created := Alone(s, i, 3), CreateRow(s.db, NewRow(q));
      && |u.calls| == |s.calls|
      && u.calls[i] == Finished(if created.Ok? then Assigned(NewRow(q), NewEvent(q, q.rowId, action))
                                else if created.error == AlreadyExists then Race else Internal)
      && u.db == if created.Fail? then s.db
                 else var d := Append(created.db, NewEvent(q, q.rowId, action)); d.(tasks := d.tasks[q.task := q.agent])
  {
    AloneSplits(s, i, 2);
    TryAdvance(s, i);
    var s1 := Try(s, Advance(i));
    hide CreateRow, Append, Try;
    if s1.calls[i].Finished? {
      FinishedStays(s1, i, 2);
    } else {
      AloneSplits(s1, i, 1);
      TryAdvance(s1, i);
      var s2 := Try(s1, Advance(i));
      AloneSplits(s2, i, 0);
      TryAdvance(s2, i);
    }
  }

  /** Six steps of a call with nothing in between do what the method does. */
  lemma CallAloneIsAtomic(s: System, i: nat, q: Request)
    requires i < |s.calls| && s.calls[i] == Begun(q) && FreshIds(s.db, q)
    ensures var u := Alone(s, i, 6);
      i < |u.calls| && u.calls[i] == Finished(AssignReply(s.db, q)) && u.db == AssignDb(s.db, q)
  {
    AloneSplits(s, i, 5);
    TryAdvance(s, i);
    var s1 := Try(s, Advance(i));
    hide CreateRow, Append, Try;
    if s1.calls[i].Finished? {
      FinishedStays(s1, i, 5);
    } else {
      AloneSplits(s1, i, 4);
      TryAdvance(s1, i);
      var s2 := Try(s1, Advance(i));
      LookToEnd(s2, i, q, ActionFor(s.db.tasks[q.task]));
    }
  }

  lemma LookToEnd(s: System, i: nat, q: Request, action: Action)
    requires i < |s.calls| && FreshIds(s.db, q) && s.calls[i] == Look(s.db, q, action)
    ensures var u, freed := Alone(s, i, 4), Supersede(s.db, q);
      && |u.calls| == |s.calls|
      && if freed.Fail? then u.calls[i] == Finished(Internal) && u.db == s.db
         else
           var created := CreateRow(freed.db, NewRow(q));
           && u.calls[i] == Finished(if created.Ok? then Assigned(NewRow(q), NewEvent(q, q.rowId, action))
                                     else if created.error == AlreadyExists then Race else Internal)
           && u.db == if created.Fail? then freed.db
                      else
                        var d := Append(created.db, NewEvent(q, q.rowId, action));
                        d.(tasks := d.tasks[q.task := q.agent])
  {
    if s.calls[i].Creating? {
      CreateToEnd(s, i, q, action);
      hide CreateRow, Append, Try;
      var s3 := Alone(s, i, 3);
      AloneSplits(s, i, 3);
      FinishedStays(s3, i, 1);
      assert Alone(s, i, 4) == Try(s3, Advance(i)) == Alone(s3, i, 1);
    } else {
      AloneSplits(s, i, 3);
      TryAdvance(s, i);
      var s1 := Try(s, Advance(i));
      assert s1.calls[i].Creating? ==> FreshIds(s1.db, q);
      hide CreateRow, Append, Try, UpdateRow;
      if s1.calls[i].Finished? {
        FinishedStays(s1, i, 3);
      } else {
        CreateToEnd(s1, i, q, action);
      }
    }
  }

  // ------------------------------------------------------------------ what a race can leave behind

  /** Two requests that give one unassigned task to different agents. */
  ghost predicate Rivals(db: Db, p: Request, q: Request) {
    && Unassigned(db) && p.task == q.task && p.task in db.tasks && p.agent != q.agent
    && p.agent in db.agents && q.agent in db.agents && p.eligible && q.eligible
    && p.rowId != NIL && q.rowId != NIL && p.rowId != q.rowId
  }

  function RaceSteps(p: Request, q: Request): seq<Step> {
    [Begin(p), Begin(q), Advance(0), Advance(1), Advance(0), Advance(0), Advance(0)]
    + [Advance(1), Advance(1), Advance(1), Advance(1), Advance(1), Advance(0)]
  }

  lemma RunNothing(s: System)
    ensures Run(s, []) == s
  {
  }

  lemma Extend(s: System, steps: seq<Step>, t: System, step: Step) returns (more: seq<Step>, u: System)
    requires t == Run(s, steps)
    ensures more == steps + [step] && u == Try(t, step) && u == Run(s, more)
  {
    more := steps + [step];
    assert more[..|steps|] == steps;
    u := Try(t, step);
  }

  /** Both calls find the task unassigned; the first has made its row and its event. */
  lemma RaceOpens(db: Db, p: Request, q: Request) returns (steps: seq<Step>, s: System)
    requires Rivals(db, p, q)
    ensures steps == RaceSteps(p, q)[..7] && s == Run(Start(db), steps)
    ensures s.calls == [Writing(p, Assign), Looking(q, Assign)]
    ensures s.db == db.(rows := map[p.rowId := NewRow(p)], active := map[p.task := p.rowId],
                        events := map[p.task := [NewEvent(p, p.rowId, Assign)]])
  {
    RunNothing(Start(db));
    hide Run;
    steps, s := Extend(Start(db), [], Start(db), Begin(p));
    steps, s := Extend(Start(db), steps, s, Begin(q));
    assert s.calls == [Begun(p), Begun(q)];
    steps, s := Extend(Start(db), steps, s, Advance(0));
    steps, s := Extend(Start(db), steps, s, Advance(1));
    assert s.calls == [Looking(p, Assign), Looking(q, Assign)] && s.db == db;
    steps, s := Extend(Start(db), steps, s, Advance(0));
    assert s.calls == [Creating(p, Assign), Looking(q, Assign)] && s.db == db;
    steps, s := Extend(Start(db), steps, s, Advance(0));
    assert s.calls == [Appending(p, Assign), Looking(q, Assign)];
    assert s.db.rows == map[p.rowId := NewRow(p)] && s.db.active == map[p.task := p.rowId] && s.db.events == map[];
    steps, s := Extend(Start(db), steps, s, Advance(0));
    assert s.calls == [Writing(p, Assign), Looking(q, Assign)];
    assert EventsOf(db, p.task) + [NewEvent(p, p.rowId, Assign)] == [NewEvent(p, p.rowId, Assign)];
    assert s.db.events == map[p.task := [NewEvent(p, p.rowId, Assign)]];
    assert steps == RaceSteps(p, q)[..7];
  }

  lemma RaceGoesOn(db: Db, p: Request, q: Request) returns (steps: seq<Step>, s: System)
    requires Rivals(db, p, q)
    ensures steps == RaceSteps(p, q)[..10] && s == Run(Start(db), steps)
    ensures s.calls == [Writing(p, Assign), Appending(q, Assign)]
    ensures s.db == db.(rows := map[p.rowId := NewRow(p).(status := Superseded, completedAt := Some(q.now)),
      q.rowId := NewRow(q)],
                        active := map[q.task := q.rowId], events := map[p.task := [NewEvent(p, p.rowId, Assign)]])
  {
    steps, s := RaceOpens(db, p, q);
    hide Run;
    steps, s := Extend(Start(db), steps, s, Advance(1));
    assert s.calls == [Writing(p, Assign), Superseding(q, Assign, NewRow(p))];
    steps, s := Extend(Start(db), steps, s, Advance(1));
    assert s.calls == [Writing(p, Assign), Creating(q, Assign)] && s.db.active == map[];
    assert s.db.rows == map[p.rowId := NewRow(p).(status := Superseded, completedAt := Some(q.now))];
    steps, s := Extend(Start(db), steps, s, Advance(1));
    assert steps == RaceSteps(p, q)[..10];
  }

  /**
   * Whatever the task, the agents and the ids: two calls at once can both succeed and leave the
   * task's assignee at the agent whose row was superseded, with two events that both say assign.
   */
  lemma RaceLosesTheAssignee(db: Db, p: Request, q: Request)
    requires Rivals(db, p, q)
    ensures var s := Run(Start(db), RaceSteps(p, q));
      && |s.calls| == 2 && s.calls[0].Finished? && s.calls[0].reply.Assigned? && s.calls[1].Finished?
           && s.calls[1].reply.Assigned?
      && s.db.tasks == db.tasks[p.task := p.agent] && s.db.active == map[q.task := q.rowId]
      && q.rowId in s.db.rows && s.db.rows[q.rowId].agent == q.agent
      && EventsOf(s.db, p.task) == [NewEvent(p, p.rowId, Assign), NewEvent(q, q.rowId, Assign)]
      && !Replays(s.db, p.task)
  {
    var steps, s := RaceGoesOn(db, p, q);
    hide Run;
    steps, s := Extend(Start(db), steps, s, Advance(1));
    assert s.calls == [Writing(p, Assign), Writing(q, Assign)];
    steps, s := Extend(Start(db), steps, s, Advance(1));
    steps, s := Extend(Start(db), steps, s, Advance(0));
    assert s.db.tasks == db.tasks[p.task := p.agent];
    assert steps == RaceSteps(p, q);
    assert EventsOf(s.db, p.task)[1].agent == q.agent;
  }
}
