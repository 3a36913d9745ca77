/**
 * Task assignment: the in-memory assignment and event stores (src/internal/store/memory.go) and
 * AssignTaskToAgent (src/internal/service/assignment.go). WithTx takes no lock and undoes nothing
 * in memory, so each store call is one atomic step.
 */
module Assignments {
  import opened Specs

  datatype Status = Active | Superseded | Completed | Cancelled | Other(text: string)
  datatype Action = Assign | Reassign

  datatype Row = Row(id: Uuid, task: Uuid, agent: Uuid, assignedAt: int, completedAt: Option<int>, status: Status)

  datatype Event = Event(assignmentId: Uuid, task: Uuid, agent: Uuid, assignedAt: int, action: Action)

  /** `tasks` gives each task's assignee, `active` is activeAssignmentByTask, `events` the history by task. */
  datatype Db = Db(
    tasks: map<Uuid, Uuid>, agents: set<Uuid>,
    rows: map<Uuid, Row>, active: map<Uuid, Uuid>, events: map<Uuid, seq<Event>>)

  datatype Error = InvalidInput | NotFound | AlreadyExists
  datatype Result = Ok(db: Db) | Fail(error: Error)

  function EventsOf(db: Db, t: Uuid): seq<Event> {
    if t in db.events then db.events[t] else []
  }

  // ------------------------------------------------------------------ store calls

  /** The caller gives the row a fresh id. */
  function CreateRow(db: Db, a: Row): Result {
    if a.task == NIL || a.agent == NIL || a.status != Active then Fail(InvalidInput)
    else if a.task in db.active then Fail(AlreadyExists)
    else Ok(db.(rows := db.rows[a.id := a], active := db.active[a.task := a.id]))
  }

  function UpdateRow(db: Db, a: Row): Result {
    if a.id == NIL || a.status.Other? then Fail(InvalidInput)
    else if a.id !in db.rows then Fail(NotFound)
    else if a.status == Active && a.task in db.active && db.active[a.task] != a.id then Fail(AlreadyExists)
    else
      Ok(db.(rows := db.rows[a.id := a],
             active := if a.status == Active then db.active[a.task := a.id]
                       else if a.task in db.active && db.active[a.task] == a.id then db.active - {a.task}
                       else db.active))
  }

  function GetActive(db: Db, t: Uuid): Option<Row> {
    if t in db.active && db.active[t] in db.rows then Some(db.rows[db.active[t]]) else None
  }

  function Append(db: Db, e: Event): Db {
    db.(events := db.events[e.task := EventsOf(db, e.task) + [e]])
  }

  // ------------------------------------------------------------------ the index and its table

  /** The index maps a task to a row exactly when that row is the task's active one. */
  ghost predicate IndexExact(db: Db) {
    && (forall r :: r in db.rows ==> db.rows[r].id == r)
    && (forall t :: t in db.active ==>
         db.active[t] in db.rows && db.rows[db.active[t]].task == t && db.rows[db.active[t]].status == Active)
    && (forall r :: r in db.rows && db.rows[r].status == Active ==>
         db.rows[r].task in db.active && db.active[db.rows[r].task] == r)
  }

  datatype Op = Create(row: Row) | Update(row: Row)

  /** A created row's id is fresh, and an update leaves the task alone. */
  predicate Lawful(db: Db, op: Op) {
    match op
    case Create(a) => a.id !in db.rows
    case Update(a) => a.id in db.rows ==> a.task == db.rows[a.id].task
  }

  function Apply(db: Db, op: Op): Db {
    var r := if op.Create? then CreateRow(db, op.row) else UpdateRow(db, op.row);
    if r.Ok? then r.db else db
  }

  lemma ApplyKeepsIndex(db: Db, op: Op)
    requires IndexExact(db) && Lawful(db, op)
    ensures IndexExact(Apply(db, op))
  {
  }

  function ApplyAll(db: Db, ops: seq<Op>): Db {
    if ops == [] then db else Apply(ApplyAll(db, ops[..|ops| - 1]), ops[|ops| - 1])
  }

  ghost predicate AllLawful(db: Db, ops: seq<Op>) {
    forall k :: 0 <= k < |ops| ==> Lawful(ApplyAll(db, ops[..k]), ops[k])
  }

  /**
   * Any order of creates and updates of any callers: every task has at most one active row, and it
   * is the one the index names.
   */
  lemma {:induction false} OneActivePerTask(db: Db, ops: seq<Op>)
    requires IndexExact(db) && AllLawful(db, ops)
    ensures var d := ApplyAll(db, ops);
      && (forall t, r :: t in d.active && d.active[t] == r <==>
           r in d.rows && d.rows[r].task == t && d.rows[r].status == Active)
      && forall r, r' :: r in d.rows && r' in d.rows && d.rows[r].status == d.rows[r'].status == Active
           ==> d.rows[r].task != d.rows[r'].task || r == r'
    ensures IndexExact(ApplyAll(db, ops))
  {
    if ops != [] {
      var front := ops[..|ops| - 1];
      assert forall k :: 0 <= k < |front| ==> front[..k] == ops[..k];
      OneActivePerTask(db, front);
      ApplyKeepsIndex(ApplyAll(db, front), ops[|ops| - 1]);
      hide Apply, Lawful;
    }
  }

  // ------------------------------------------------------------------ one call by itself

  /** `eligible` says whether the agent is idle and has the required capabilities. */
  datatype Request = Request(task: Uuid, agent: Uuid, eligible: bool, rowId: Uuid, now: int)

  datatype Reply =
    | TaskNotFound | AgentNotFound | NotEligible | Race | Internal
    | Idempotent(existing: Option<Row>)
    | Assigned(row: Row, event: Event)

  function NewRow(q: Request): Row {
    Row(q.rowId, q.task, q.agent, q.now, None, Active)
  }

  function NewEvent(q: Request, assignmentId: Uuid, action: Action): Event {
    Event(assignmentId, q.task, q.agent, q.now, action)
  }

  function ActionFor(assignee: Uuid): Action {
    if assignee == NIL then Assign else Reassign
  }

  class AssignmentService {
    var tasks: map<Uuid, Uuid>
    var agents: set<Uuid>
    var rows: map<Uuid, Row>
    var active: map<Uuid, Uuid>
    var events: map<Uuid, seq<Event>>

    ghost function Model(): Db
      reads this
    {
      Db(tasks, agents, rows, active, events)
    }

    constructor (tasks: map<Uuid, Uuid>, agents: set<Uuid>)
      ensures Model() == Db(tasks, agents, map[], map[], map[])
    {
      this.tasks, this.agents := tasks, agents;
      rows, active, events := map[], map[], map[];
    }

    /** The assignment store's Create. */
    method Create(a: Row) returns (error: Option<Error>)
      modifies this`rows, this`active
      ensures match error
        case None => CreateRow(old(Model()), a) == Ok(Model())
        case Some(e) => CreateRow(old(Model()), a) == Fail(e) && Model() == old(Model())
      ensures error == (if a.task == NIL || a.agent == NIL || a.status != Active then Some(InvalidInput)
                        else if a.task in old(active) then Some(AlreadyExists) else None)
      ensures error.None? ==> rows == old(rows)[a.id := a] && active == old(active)[a.task := a.id]
    {
      if a.task == NIL || a.agent == NIL || a.status != Active {
        return Some(InvalidInput);
      }
      if a.task in active {
        return Some(AlreadyExists);
      }
      rows := rows[a.id := a];
      active := active[a.task := a.id];
      return None;
    }

    /** The assignment store's Update: the row first, then the index. */
    method Update(a: Row) returns (error: Option<Error>)
      modifies this`rows, this`active
      ensures match error
        case None => UpdateRow(old(Model()), a) == Ok(Model())
        case Some(e) => UpdateRow(old(Model()), a) == Fail(e) && Model() == old(Model())
      ensures
        var other := a.task in old(active) && old(active)[a.task] != a.id;
        error == (if a.id == NIL
            || a.status.Other? then Some(InvalidInput) else if a.id !in old(rows) then Some(NotFound)
                  else if a.status == Active && other then Some(AlreadyExists) else None)
      ensures error.None? ==>
        && rows == old(rows)[a.id := a]
        && forall t :: t != a.task ==>
             (t in active <==> t in old(active)) && (t in active ==> active[t] == old(active)[t])
      ensures error.None? && a.status == Active ==> a.task in active && active[a.task] == a.id
      ensures error.None? && a.status != Active ==>
        if a.task in old(active) && old(active)[a.task] != a.id then a.task in active
            && active[a.task] == old(active)[a.task]
        else a.task !in active
    {
      if a.id == NIL || a.status.Other? {
        return Some(InvalidInput);
      }
      if a.id !in rows {
        return Some(NotFound);
      }
      if a.status == Active && a.task in active && active[a.task] != a.id {
        return Some(AlreadyExists);
      }
      rows := rows[a.id := a];
      if a.status == Active {
        active := active[a.task := a.id];
      } else if a.task in active && active[a.task] == a.id {
        active := active - {a.task};
      }
      return None;
    }

    method GetActiveByTask(t: Uuid) returns (row: Option<Row>)
      ensures row == GetActive(Model(), t)
      ensures row == if t in active && active[t] in rows then Some(rows[active[t]]) else None
    {
      if t !in active || active[t] !in rows {
        return None;
      }
      return Some(rows[active[t]]);
    }

    method AppendEvent(e: Event)
      modifies this`events
      ensures Model() == Append(old(Model()), e)
      ensures events == old(events)[e.task := (if e.task in old(events) then old(events)[e.task] else []) + [e]]
    {
      events := events[e.task := (if e.task in events then events[e.task] else []) + [e]];
    }

    method AssignTaskToAgent(q: Request) returns (reply: Reply)
      modifies this
      ensures reply == AssignReply(old(Model()), q) && Model() == AssignDb(old(Model()), q)
      ensures reply.TaskNotFound? <==> q.task !in old(tasks)
      ensures reply.AgentNotFound? <==> q.task in old(tasks) && q.agent !in agents
      ensures reply.NotEligible? <==> q.task in old(tasks) && q.agent in agents && !q.eligible
      ensures reply.Idempotent? <==>
        q.task in old(tasks) && q.agent in agents && q.eligible && old(tasks)[q.task] == q.agent
      ensures reply.TaskNotFound? || reply.AgentNotFound? || reply.NotEligible? || reply.Idempotent? ==>
        Model() == old(Model())
      ensures reply.Idempotent? ==>
        reply.existing == if q.task in active && active[q.task] in rows then Some(rows[active[q.task]]) else None
      ensures reply.Assigned? ==> Reassigned(old(Model()), Model(), q, reply.row, reply.event)
    {
      hide Reassigned;
      if AssignReply(Model(), q).Assigned? {
        AssignedMeans(Model(), q);
      }
      if q.task !in tasks {
        return TaskNotFound;
      }
      if q.agent !in agents {
        return AgentNotFound;
      }
      if !q.eligible {
        return NotEligible;
      }
      if tasks[q.task] == q.agent {
        var existing := GetActiveByTask(q.task);
        return Idempotent(existing);
      }
      var action := if tasks[q.task] == NIL then Assign else Reassign;
      hide CreateRow, UpdateRow, GetActive, Append;
      var prev := GetActiveByTask(q.task);
      if prev.Some? {
        var error := Update(prev.value.(status := Superseded, completedAt := Some(q.now)));
        if error.Some? {
          return Internal;
        }
      }
      var error := Create(Row(q.rowId, q.task, q.agent, q.now, None, Active));
      if error.Some? {
        return if error.value == AlreadyExists then Race else Internal;
      }
      var event := Event(q.rowId, q.task, q.agent, q.now, action);
      AppendEvent(event);
      tasks := tasks[q.task := q.agent];
      return Assigned(NewRow(q), event);
    }
  }

  /**
   * The task's active row, if any, is superseded as of now and the request's row is in its place, with one
   * event of the same agent, time and row; the task has that agent, and nothing else has changed.
   */
  ghost predicate Reassigned(db: Db, db': Db, q: Request, row: Row, event: Event) {
    var t, prev := q.task, GetActive(db, q.task);
    && t in db.tasks && db'.tasks == db.tasks[t := q.agent] && db'.agents == db.agents
    && row == Row(q.rowId, t, q.agent, q.now, None, Active)
    && event == Event(q.rowId, t, q.agent, q.now, if db.tasks[t] == NIL then Assign else Reassign)
    && db'.events == db.events[t := (if t in db.events then db.events[t] else []) + [event]]
    && t in db'.active && db'.active[t] == q.rowId && q.rowId in db'.rows && db'.rows[q.rowId] == row
    && (prev.Some? && prev.value.id != q.rowId ==>
          prev.value.id in db'.rows
          && db'.rows[prev.value.id] == prev.value.(status := Superseded, completedAt := Some(q.now)))
    && (forall r :: r != q.rowId && (prev.None? || r != prev.value.id) ==>
          (r in db'.rows <==> r in db.rows) && (r in db.rows ==> db'.rows[r] == db.rows[r]))
  }

  lemma AssignedMeans(db: Db, q: Request)
    requires AssignReply(db, q).Assigned?
    ensures Reassigned(db, AssignDb(db, q), q, AssignReply(db, q).row, AssignReply(db, q).event)
  {
  }

  /** The call passes its checks and has something to write. */
  predicate Writes(db: Db, q: Request) {
    q.task in db.tasks && q.agent in db.agents && q.eligible && db.tasks[q.task] != q.agent
  }

  function Supersede(db: Db, q: Request): Result {
    var prev := GetActive(db, q.task);
    if prev.None? then Ok(db) else UpdateRow(db, prev.value.(status := Superseded, completedAt := Some(q.now)))
  }

  function AssignDb(db: Db, q: Request): Db {
    if !Writes(db, q) then db
    else
      var freed := Supersede(db, q);
      if freed.Fail? then db
      else
        var created := CreateRow(freed.db, NewRow(q));
        if created.Fail? then freed.db
        else
          var done := Append(created.db, NewEvent(q, q.rowId, ActionFor(db.tasks[q.task])));
          done.(tasks := done.tasks[q.task := q.agent])
  }

  function AssignReply(db: Db, q: Request): Reply {
    if q.task !in db.tasks then TaskNotFound
    else if q.agent !in db.agents then AgentNotFound
    else if !q.eligible then NotEligible
    else if db.tasks[q.task] == q.agent then Idempotent(GetActive(db, q.task))
    else
      var freed := Supersede(db, q);
      if freed.Fail? then Internal
      else
        var created := CreateRow(freed.db, NewRow(q));
        if created.Fail? then (if created.error == AlreadyExists then Race else Internal)
        else Assigned(NewRow(q), NewEvent(q, q.rowId, ActionFor(db.tasks[q.task])))
  }

  // ------------------------------------------------------------------ history replays to state

  /** The row that the k-th event of a task made, as the events after it left it. */
  function RowOf(es: seq<Event>, k: nat): Row
    requires k < |es|
  {
    var e := es[k];
    if k + 1 < |es| then Row(e.assignmentId, e.task, e.agent, e.assignedAt, Some(es[k + 1].assignedAt), Superseded)
    else Row(e.assignmentId, e.task, e.agent, e.assignedAt, None, Active)
  }

  /** One task's assignee, rows and index entry are what replaying its events gives. */
  ghost predicate Replays(db: Db, t: Uuid) {
    var es := EventsOf(db, t);
    && (t in db.tasks ==> db.tasks[t] == if es == [] then NIL else es[|es| - 1].agent)
    && (t in db.active <==> es != [])
    && (es != [] ==> db.active[t] == es[|es| - 1].assignmentId)
    && (forall k :: 0 <= k < |es| ==>
          && es[k].task == t && es[k].agent != NIL && es[k].action == (if k == 0 then Assign else Reassign)
          && es[k].assignmentId in db.rows && db.rows[es[k].assignmentId] == RowOf(es, k))
    && (forall k :: 0 < k < |es| ==> es[k].agent != es[k - 1].agent)
    && (forall j, k :: 0 <= j < k < |es| ==> es[j].assignmentId != es[k].assignmentId)
  }

  /** Every row was made by an event of its task. */
  ghost predicate RowsHaveEvents(db: Db) {
    forall r :: r in db.rows ==>
        exists k :: 0 <= k < |EventsOf(db, db.rows[r].task)| && EventsOf(db, db.rows[r].task)[k].assignmentId == r
  }

  ghost predicate Consistent(db: Db) {
    && NIL !in db.tasks && NIL !in db.agents && NIL !in db.rows
    && IndexExact(db) && RowsHaveEvents(db) && forall t :: t in db.tasks ==> Replays(db, t)
  }

  /** The request brings a row id of its own. */
  predicate FreshIds(db: Db, q: Request) {
    q.rowId != NIL && q.rowId !in db.rows
  }

  /** The table once the task's active row has been superseded. */
  function FreedRows(db: Db, q: Request): map<Uuid, Row> {
    var es := EventsOf(db, q.task);
    if es == [] then db.rows
    else
      var e := es[|es| - 1];
      db.rows[e.assignmentId := Row(e.assignmentId, e.task, e.agent, e.assignedAt, Some(q.now), Superseded)]
  }

  lemma SupersedeMeans(db: Db, q: Request)
    requires Replays(db, q.task) && NIL !in db.rows
    ensures Supersede(db, q) == Ok(db.(rows := FreedRows(db, q), active := db.active - {q.task}))
  {
    var es := EventsOf(db, q.task);
    if es == [] {
      assert db.active - {q.task} == db.active;
    } else {
      assert db.rows[es[|es| - 1].assignmentId] == RowOf(es, |es| - 1);
    }
  }

  /** `d` is `db` after a call that wrote: each table's change spelled out. */
  predicate Wrote(db: Db, d: Db, q: Request) {
    var es := EventsOf(db, q.task);
    && d.tasks == db.tasks[q.task := q.agent] && d.agents == db.agents
    && d.active == (db.active - {q.task})[q.task := q.rowId]
    && d.events == db.events[q.task := es + [NewEvent(q, q.rowId, if es == [] then Assign else Reassign)]]
    && d.rows == FreedRows(db, q)[q.rowId := NewRow(q)]
  }

  lemma AssignMeans(db: Db, q: Request)
    requires Replays(db, q.task) && NIL !in db.rows && NIL !in db.tasks && NIL !in db.agents
    requires FreshIds(db, q) && Writes(db, q)
    ensures AssignReply(db, q).Assigned? && Wrote(db, AssignDb(db, q), q)
  {
    SupersedeMeans(db, q);
    var es := EventsOf(db, q.task);
    assert es != [] ==> es[|es| - 1].agent != NIL;
    hide Replays, FreedRows, Supersede;
  }

  lemma OtherRowStays(db: Db, q: Request, r: Uuid)
    requires Replays(db, q.task) && r in db.rows && db.rows[r].task != q.task && FreshIds(db, q)
    ensures r in FreedRows(db, q) && FreedRows(db, q)[r] == db.rows[r] && r != q.rowId
  {
    var es := EventsOf(db, q.task);
    assert es != [] ==> db.rows[es[|es| - 1].assignmentId].task == q.task;
  }

  lemma OtherTaskReplays(db: Db, d: Db, q: Request, t: Uuid)
    requires Replays(db, q.task) && Replays(db, t) && t != q.task && FreshIds(db, q) && Wrote(db, d, q)
    ensures Replays(d, t)
  {
    var es := EventsOf(db, t);
    forall k | 0 <= k < |es|
      ensures es[k].assignmentId in d.rows && d.rows[es[k].assignmentId] == RowOf(es, k)
    {
      OtherRowStays(db, q, es[k].assignmentId);
    }
    assert EventsOf(d, t) == es && (t in d.active <==> t in db.active) && (t in d.tasks <==> t in db.tasks);
    hide FreedRows, Wrote, RowOf, FreshIds;
  }

  lemma OwnTaskReplays(db: Db, d: Db, q: Request)
    requires Replays(db, q.task) && FreshIds(db, q) && Writes(db, q) && q.agent != NIL && Wrote(db, d, q)
    ensures Replays(d, q.task)
  {
    var es, more := EventsOf(db, q.task), EventsOf(d, q.task);
    assert |more| == |es| + 1 && forall k :: 0 <= k < |es| ==> more[k] == es[k];
    forall k | 0 <= k < |more|
      ensures more[k].assignmentId in d.rows && d.rows[more[k].assignmentId] == RowOf(more, k)
    {
      if k < |es| {
        assert db.rows[es[k].assignmentId] == RowOf(es, k);
        assert es[k].assignmentId != q.rowId;
      }
    }
  }

  lemma WroteKeepsRows(db: Db, d: Db, q: Request)
    requires Replays(db, q.task) && RowsHaveEvents(db) && IndexExact(db) && FreshIds(db, q) && Wrote(db, d, q)
    ensures RowsHaveEvents(d)
  {
    var es := EventsOf(db, q.task);
    assert es != [] ==> db.rows[es[|es| - 1].assignmentId] == RowOf(es, |es| - 1);
    hide Replays, IndexExact;
    forall r | r in d.rows
      ensures exists k :: 0 <= k < |EventsOf(d, d.rows[r].task)| && EventsOf(d, d.rows[r].task)[k].assignmentId == r
    {
      var t := d.rows[r].task;
      if r == q.rowId {
        assert EventsOf(d, t)[|es|].assignmentId == r;
      } else {
        assert db.rows[r].task == t;
        var k :| 0 <= k < |EventsOf(db, t)| && EventsOf(db, t)[k].assignmentId == r;
        assert EventsOf(d, t)[k].assignmentId == r;
      }
    }
  }

  lemma WroteKeepsIndex(db: Db, d: Db, q: Request)
    requires Replays(db, q.task) && IndexExact(db) && FreshIds(db, q) && Wrote(db, d, q)
    requires NIL !in db.rows && q.task != NIL && q.agent != NIL
    ensures IndexExact(d)
  {
    var freed := db.(rows := FreedRows(db, q), active := db.active - {q.task});
    SupersedeMeans(db, q);
    hide Replays, FreedRows;
    if GetActive(db, q.task).Some? {
      ApplyKeepsIndex(db, Update(GetActive(db, q.task).value.(status := Superseded, completedAt := Some(q.now))));
    }
    assert IndexExact(freed);
    assert q.rowId !in freed.rows by {
      FreedKeys(db, q);
    }
    ApplyKeepsIndex(freed, Create(NewRow(q)));
    hide IndexExact;
    assert IndexExact(Apply(freed, Create(NewRow(q))));
    SameIndex(Apply(freed, Create(NewRow(q))), d);
  }

  lemma FreedKeys(db: Db, q: Request)
    requires Replays(db, q.task)
    ensures FreedRows(db, q).Keys == db.rows.Keys
  {
  }

  lemma SameIndex(a: Db, b: Db)
    requires IndexExact(a) && a.rows == b.rows && a.active == b.active
    ensures IndexExact(b)
  {
  }

  lemma WroteKeepsReplays(db: Db, d: Db, q: Request)
    requires Consistent(db) && FreshIds(db, q) && Writes(db, q) && Wrote(db, d, q)
    ensures forall t :: t in d.tasks ==> Replays(d, t)
  {
    assert Replays(db, q.task) && q.agent != NIL && d.tasks.Keys == db.tasks.Keys;
    OwnTaskReplays(db, d, q);
    forall t | t in db.tasks && t != q.task
      ensures Replays(d, t)
    {
      OtherTaskReplays(db, d, q, t) by {
        assert Replays(db, t);
      }
    }
    hide Replays, RowsHaveEvents, IndexExact, Wrote;
  }

  lemma AssignKeeps(db: Db, q: Request)
    requires Consistent(db) && FreshIds(db, q)
    ensures Consistent(AssignDb(db, q))
  {
    if Writes(db, q) {
      var d := AssignDb(db, q);
      AssignMeans(db, q);
      assert Wrote(db, d, q) && d.tasks.Keys == db.tasks.Keys && d.agents == db.agents && NIL !in d.rows by {
        hide AssignDb, AssignReply;
      }
      WroteKeepsRows(db, d, q);
      WroteKeepsIndex(db, d, q);
      WroteKeepsReplays(db, d, q);
      hide AssignDb, AssignReply, Replays, RowsHaveEvents, IndexExact, Wrote;
    }
  }

  function AssignAll(db: Db, qs: seq<Request>): Db {
    if qs == [] then db else AssignDb(AssignAll(db, qs[..|qs| - 1]), qs[|qs| - 1])
  }

  ghost predicate AllFresh(db: Db, qs: seq<Request>) {
    forall k :: 0 <= k < |qs| ==> FreshIds(AssignAll(db, qs[..k]), qs[k])
  }

  /** A database of tasks that nobody has been assigned to. */
  ghost predicate Unassigned(db: Db) {
    && NIL !in db.tasks && NIL !in db.agents && db.rows == map[] && db.active == map[] && db.events == map[]
    && forall t :: t in db.tasks ==> db.tasks[t] == NIL
  }

  /**
   * After any sequence of calls, one after the other, every task's assignee, active row and last
   * event name the same agent, its earlier rows are superseded as of the next event, its rows and
   * events pair one to one, and its first action is assign and every later one reassign.
   */
  lemma {:induction false} HistoryReplays(db: Db, qs: seq<Request>)
    requires Unassigned(db) && AllFresh(db, qs)
    ensures Consistent(AssignAll(db, qs))
  {
    if qs != [] {
      var front := qs[..|qs| - 1];
      assert forall k :: 0 <= k < |front| ==> front[..k] == qs[..k];
      HistoryReplays(db, front);
      AssignKeeps(AssignAll(db, front), qs[|qs| - 1]);
      hide Consistent, FreshIds, AssignDb;
    }
  }

  /** Calls by themselves never meet the race error, and a repeated one adds nothing. */
  lemma SequentialCallsSucceed(db: Db, qs: seq<Request>, q: Request)
    requires Unassigned(db) && AllFresh(db, qs) && FreshIds(AssignAll(db, qs), q)
    ensures var d := AssignAll(db, qs);
      && (Writes(d, q) <==> AssignReply(d, q).Assigned?)
      && !AssignReply(d, q).Race? && !AssignReply(d, q).Internal?
      && (!Writes(d, q) ==> AssignDb(d, q) == d)
      && (Writes(d, q) ==> forall q': Request :: q'.task == q.task && q'.agent == q.agent ==>
           AssignDb(AssignDb(d, q), q') == AssignDb(d, q))
  {
    HistoryReplays(db, qs);
    if Writes(AssignAll(db, qs), q) {
      AssignMeans(AssignAll(db, qs), q);
    }
    hide AssignAll, Consistent;
  }

  /** UpdateTask's write of the assignee, without an event. */
  function PatchAssignee(db: Db, t: Uuid, agent: Uuid): Db {
    if t in db.tasks && agent != NIL then db.(tasks := db.tasks[t := agent]) else db
  }

  lemma PatchReplays(db: Db, t: Uuid, agent: Uuid)
    requires Replays(db, t) && t in db.tasks
    ensures Replays(PatchAssignee(db, t, agent), t) <==> agent == NIL || agent == db.tasks[t]
  {
    if agent == NIL || agent == db.tasks[t] {
      assert PatchAssignee(db, t, agent).tasks == db.tasks;
      assert PatchAssignee(db, t, agent) == db;
    } else {
      AssigneeReplays(db, t);
      if Replays(PatchAssignee(db, t, agent), t) {
        AssigneeReplays(PatchAssignee(db, t, agent), t);
      }
      assert EventsOf(PatchAssignee(db, t, agent), t) == EventsOf(db, t);
      hide Replays, EventsOf;
    }
  }

  lemma AssigneeReplays(db: Db, t: Uuid)
    requires Replays(db, t) && t in db.tasks
    ensures var es := EventsOf(db, t); db.tasks[t] == if es == [] then NIL else es[|es| - 1].agent
    ensures GetActive(db, t).Some? ==> GetActive(db, t).value.agent == db.tasks[t]
  {
    var es := EventsOf(db, t);
    assert es != [] ==> db.rows[es[|es| - 1].assignmentId] == RowOf(es, |es| - 1);
  }

  /**
   * After any sequence of calls, UpdateTask keeps a task's history replayable if and only if it does
   * not change the assignee. If it does, assigning the task to the new assignee is taken for a repeat:
   * it writes nothing and answers with another agent's row, if with any.
   */
  lemma PatchKeepsReplayExactly(db: Db, qs: seq<Request>, t: Uuid, agent: Uuid, next: Request)
    requires Unassigned(db) && AllFresh(db, qs) && t in AssignAll(db, qs).tasks
    ensures var d, p := AssignAll(db, qs), PatchAssignee(AssignAll(db, qs), t, agent);
      && (Replays(p, t) <==> agent == NIL || agent == d.tasks[t])
      && (!Replays(p, t) && next.task == t && next.agent == agent && agent in d.agents && next.eligible ==>
            && AssignDb(p, next) == p && AssignReply(p, next) == Idempotent(GetActive(p, t))
            && (GetActive(p, t).Some? ==> GetActive(p, t).value.agent != agent))
  {
    var d := AssignAll(db, qs);
    HistoryReplays(db, qs);
    assert Replays(d, t);
    PatchReplays(d, t, agent);
    AssigneeReplays(d, t);
    assert GetActive(PatchAssignee(d, t, agent), t) == GetActive(d, t);
    hide Replays, AssignAll, Consistent, GetActive;
  }
}
