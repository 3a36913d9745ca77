/**
 * The execution lifecycle (src/internal/service/execution.go over the execution store in
 * src/internal/store/memory.go). Each service call reads a row, checks the transition and writes;
 * here every call is atomic per row, and at the end the two halves are taken apart.
 */
module Lifecycle {
  import opened Specs

  datatype Status = Queued | Assigned | Running | Review | Completed | Failed | Other(text: string)

  datatype Execution = Execution(status: Status, completedAt: Option<int>, errorMessage: Option<string>)

  predicate IsTerminal(s: Status) {
    s.Completed? || s.Failed?
  }

  /** validExecutionTransitions. */
  function Targets(from: Status): set<Status> {
    match from
    case Queued => {Assigned, Status.Failed}
    case Assigned => {Status.Running, Status.Failed, Queued}
    case Running => {Review, Status.Failed}
    case Review => {Status.Completed, Status.Failed}
    case Completed => {}
    case Failed => {}
    case Other(_) => {}
  }

  predicate IsValidTransition(from: Status, to: Status) {
    from == to || to in Targets(from)
  }

  /** The store's UpdateStatus; it checks no transition. */
  function Written(e: Execution, to: Status, message: Option<string>, now: int): Execution {
    Execution(to,
              if IsTerminal(to) then Some(now) else e.completedAt,
              if message.Some? then message else if to != Status.Failed then None else e.errorMessage)
  }

  // ------------------------------------------------------------------ calls

  /** What runtime.Wait gave driveWorker. */
  datatype WaitResult = WaitFailed(error: string) | Ended(status: WorkerStatus, message: string, result: string)

  datatype Call =
    | Create(id: Uuid)                                                // CreateExecution: the row,
    | Resave(id: Uuid, now: int)                                      // after the spawn the row again,
    | AddWorker(id: Uuid)                                             // and the worker row
    | Patch(id: Uuid, to: Status, message: Option<string>, now: int)   // UpdateExecutionStatus
    | Decide(id: Uuid, accepted: bool, reason: string, now: int)       // ReviewExecution
    | Cancel(id: Uuid, now: int)                                       // CancelExecution
    | BeginDrive(id: Uuid)                                             // driveWorker before Wait
    | Drive(id: Uuid, result: WaitResult, now: int)                    // driveWorker after Wait

  datatype Reply = Done | NoSuchExecution | InvalidTransition | ReasonRequired | Exists | SpawnFailed

  datatype WorkerRow = WorkerRow(status: WorkerStatus, completedAt: Option<int>, message: string, result: string)

  /** `workers` holds each execution's worker row. */
  datatype Db = Db(rows: map<Uuid, Execution>, workers: map<Uuid, WorkerRow>)

  const EMPTY := Db(map[], map[])
  const OPERATOR_CANCEL := "cancelled by operator"

  function DriveTarget(r: WaitResult): (to: Status)
    ensures to == Review || to == Status.Failed
  {
    if r.Ended? && r.status.Completed? then Review else Status.Failed
  }

  function DriveMessage(r: WaitResult): Option<string> {
    match r
    case WaitFailed(error) => Some("runtime wait: " + error)
    case Ended(Completed, _, _) => None
    case Ended(Failed, m, _) => if m != "" then Some(m) else None
    case Ended(Cancelled, m, _) => Some("worker cancelled: " + m)
    case Ended(status, _, _) => Some("worker returned unknown status: " + status.Text())
  }

  function WorkerStatusFrom(s: Status): WorkerStatus {
    if s.Completed? || s.Review? then WorkerStatus.Completed else WorkerStatus.Failed
  }

  const NEW_WORKER := WorkerRow(WorkerStatus.Pending, None, "", "")

  /** The worker row that driveWorker leaves. */
  function EndedWorker(w: WorkerRow, r: WaitResult, now: int): WorkerRow {
    var message := DriveMessage(r);
    WorkerRow(WorkerStatusFrom(DriveTarget(r)), Some(now),
              if message.Some? then message.value else w.message,
              if r.Ended? && r.status.Completed? && r.result != "" then r.result else w.result)
  }

  /** What UpdateExecutionStatus leaves of a row. */
  function Moved(e: Execution, to: Status, message: Option<string>, now: int): Execution {
    if e.status != to && IsValidTransition(e.status, to) then Written(e, to, message, now) else e
  }

  class ExecutionService {
    var rows: map<Uuid, Execution>
    var workers: map<Uuid, WorkerRow>

    ghost function Model(): Db
      reads this
    {
      Db(rows, workers)
    }

    constructor ()
      ensures Model() == EMPTY
    {
      rows, workers := map[], map[];
    }

    method UpdateStatus(id: Uuid, to: Status, message: Option<string>, now: int) returns (found: bool)
      modifies this`rows
      ensures found == (id in old(rows))
      ensures rows == if found then old(rows)[id := Written(old(rows)[id], to, message, now)] else old(rows)
      ensures found ==>
        && rows[id].status == to
        && rows[id].completedAt
             == (if to == Status.Completed || to == Status.Failed then Some(now) else old(rows)[id].completedAt)
        && rows[id].errorMessage == (if message.Some? then message
                                     else if to == Status.Failed then old(rows)[id].errorMessage else None)
    {
      if id !in rows {
        return false;
      }
      var e := rows[id].(status := to);
      if to == Status.Completed || to == Status.Failed {
        e := e.(completedAt := Some(now));
      }
      if message.Some? {
        e := e.(errorMessage := message);
      } else if to != Status.Failed {
        e := e.(errorMessage := None);
      }
      rows := rows[id := e];
      return true;
    }

    /** `spawns` says whether runtime.Spawn succeeds; when it fails the row stays. */
    method CreateExecution(id: Uuid, spawns: bool, now: int) returns (r: Reply)
      modifies this
      ensures r == if id in old(rows) then Exists else if spawns then Done else SpawnFailed
      ensures Model() == match r
        case Exists => old(Model())
        case SpawnFailed => Apply(old(Model()), Create(id))
        case _ => Apply(Apply(Apply(old(Model()), Create(id)), Resave(id, now)), AddWorker(id))
      ensures r != Exists ==> rows == old(rows)[id := Execution(Assigned, None, None)]
      ensures workers == if r == Done then old(workers)[id := WorkerRow(WorkerStatus.Pending, None, "", "")]
        else old(workers)
    {
      if id in rows {
        return Exists;
      }
      rows := rows[id := Execution(Assigned, None, None)];
      if !spawns {
        return SpawnFailed;
      }
      var found := UpdateStatus(id, rows[id].status, rows[id].errorMessage, now);
      workers := workers[id := WorkerRow(WorkerStatus.Pending, None, "", "")];
      return Done;
    }

    method UpdateExecutionStatus(id: Uuid, to: Status, message: Option<string>, now: int) returns (r: Reply)
      modifies this`rows
      ensures Model() == Apply(old(Model()), Patch(id, to, message, now))
      ensures r == ReplyTo(old(Model()), Patch(id, to, message, now))
    {
      if id !in rows {
        return NoSuchExecution;
      }
      if rows[id].status == to {
        assert rows == rows[id := rows[id]];
        return Done;
      }
      if !IsValidTransition(rows[id].status, to) {
        assert rows == rows[id := rows[id]];
        return InvalidTransition;
      }
      var found := UpdateStatus(id, to, message, now);
      return Done;
    }

    method ReviewExecution(id: Uuid, accepted: bool, reason: string, now: int) returns (r: Reply)
      modifies this`rows
      ensures Model() == Apply(old(Model()), Decide(id, accepted, reason, now))
      ensures r == ReplyTo(old(Model()), Decide(id, accepted, reason, now))
    {
      if id !in rows {
        return NoSuchExecution;
      }
      if rows[id].status != Review {
        return InvalidTransition;
      }
      if accepted {
        r := UpdateExecutionStatus(id, Status.Completed, None, now);
      } else if reason == "" {
        r := ReasonRequired;
      } else {
        r := UpdateExecutionStatus(id, Status.Failed, Some(reason), now);
      }
    }

    method CancelExecution(id: Uuid, now: int) returns (r: Reply)
      modifies this`rows
      ensures Model() == Apply(old(Model()), Cancel(id, now)) && r == ReplyTo(old(Model()), Cancel(id, now))
    {
      if id !in rows {
        return NoSuchExecution;
      }
      if IsTerminal(rows[id].status) {
        assert rows == rows[id := rows[id]];
        return InvalidTransition;
      }
      r := UpdateExecutionStatus(id, Status.Failed, Some(OPERATOR_CANCEL), now);
    }

    /** driveWorker, given what Wait returns; the reply is what it only logs. */
    method DriveWorker(id: Uuid, result: WaitResult, now: int) returns (r: Reply)
      modifies this
      ensures Model() == Apply(Apply(old(Model()), BeginDrive(id)), Drive(id, result, now))
      ensures r == ReplyTo(old(Model()), Drive(id, result, now))
    {
      if id in workers {
        workers := workers[id := workers[id].(status := WorkerStatus.Running)];
      }
      var target, message := Translate(result);
      EndWorker(id, target, message, result, now);
      hide DriveTarget, DriveMessage, EndedWorker;
      r := UpdateExecutionStatus(id, target, message, now);
    }

    /** What the outcome of Wait asks of the execution. */
    method Translate(result: WaitResult) returns (target: Status, message: Option<string>)
      ensures target == DriveTarget(result) && message == DriveMessage(result)
    {
      target := Status.Failed;
      message := None;
      match result {
        case WaitFailed(error) =>
          message := Some("runtime wait: " + error);
        case Ended(status, text, _) =>
          if status == WorkerStatus.Completed {
            target := Review;
          } else if status == WorkerStatus.Failed {
            if text != "" {
              message := Some(text);
            }
          } else if status == WorkerStatus.Cancelled {
            message := Some("worker cancelled: " + text);
          } else {
            message := Some("worker returned unknown status: " + status.Text());
          }
      }
    }

    /** The worker row at its end. */
    method EndWorker(id: Uuid, target: Status, message: Option<string>, result: WaitResult, now: int)
      requires target == DriveTarget(result) && message == DriveMessage(result)
      modifies this`workers
      ensures workers == if id in old(workers) then old(workers)[id := EndedWorker(old(workers)[id], result, now)]
        else old(workers)
    {
      if id !in workers {
        return;
      }
      var w := workers[id];
      w := w.(status := if target == Review then WorkerStatus.Completed else WorkerStatus.Failed,
              completedAt := Some(now));
      if message.Some? {
        w := w.(message := message.value);
      }
      if result.Ended? && result.status == WorkerStatus.Completed && |result.result| > 0 {
        w := w.(result := result.result);
      }
      workers := workers[id := w];
    }
  }

  function WorkersAfter(workers: map<Uuid, WorkerRow>, c: Call): map<Uuid, WorkerRow> {
    match c
    case AddWorker(id) => workers[id := NEW_WORKER]
    case BeginDrive(id) => if id in workers then workers[id := workers[id].(status := WorkerStatus.Running)]
        else workers
    case Drive(id, result, now) => if id in workers then workers[id := EndedWorker(workers[id], result, now)]
        else workers
    case _ => workers
  }

  /** What a call leaves of its own row. */
  function RowAfter(e: Execution, c: Call): Execution {
    match c
    case Resave(_, now) => Written(e, e.status, e.errorMessage, now)
    case Patch(_, to, message, now) => Moved(e, to, message, now)
    case Decide(_, accepted, reason, now) =>
      if e.status != Review || (!accepted && reason == "") then e
      else if accepted then Moved(e, Status.Completed, None, now)
      else Moved(e, Status.Failed, Some(reason), now)
    case Cancel(_, now) => Moved(e, Status.Failed, Some(OPERATOR_CANCEL), now)
    case Drive(_, result, now) => Moved(e, DriveTarget(result), DriveMessage(result), now)
    case _ => e
  }

  /** A service call, or a part of one, as a function of the tables. */
  function Apply(db: Db, c: Call): Db {
    Db(if c.id in db.rows then db.rows[c.id := RowAfter(db.rows[c.id], c)]
       else if c.Create? then db.rows[c.id := Execution(Assigned, None, None)]
       else db.rows,
       WorkersAfter(db.workers, c))
  }

  function MoveReply(e: Execution, to: Status): Reply {
    if IsValidTransition(e.status, to) then Done else InvalidTransition
  }

  function ReplyTo(db: Db, c: Call): Reply {
    if c.Create? then (if c.id in db.rows then Exists else Done)
    else if c.id !in db.rows then NoSuchExecution
    else
      var e := db.rows[c.id];
      match c
      case Resave(_, _) => Done
      case AddWorker(_) => Done
      case BeginDrive(_) => Done
      case Patch(_, to, _, _) => MoveReply(e, to)
      case Decide(_, accepted, reason, _) =>
        if e.status != Review then InvalidTransition else if !accepted && reason == "" then ReasonRequired else Done
      case Cancel(_, _) => if IsTerminal(e.status) then InvalidTransition else MoveReply(e, Status.Failed)
      case Drive(_, result, _) => MoveReply(e, DriveTarget(result))
  }

  function ApplyAll(calls: seq<Call>): Db {
    if calls == [] then EMPTY else Apply(ApplyAll(calls[..|calls| - 1]), calls[|calls| - 1])
  }

  // ------------------------------------------------------------------ whole runs

  /** The row is listed under a known status, and has a completion time exactly when that is terminal. */
  ghost predicate Sound(db: Db) {
    forall id :: id in db.rows ==>
        !db.rows[id].status.Other? && (db.rows[id].completedAt.Some? <==> IsTerminal(db.rows[id].status))
  }

  lemma ApplyKeepsSound(db: Db, c: Call)
    requires Sound(db)
    ensures Sound(Apply(db, c))
  {
  }

  lemma {:induction false} SoundAlways(calls: seq<Call>)
    ensures Sound(ApplyAll(calls))
  {
    if calls != [] {
      SoundAlways(calls[..|calls| - 1]);
      ApplyKeepsSound(ApplyAll(calls[..|calls| - 1]), calls[|calls| - 1]);
    }
  }

  /** One call moves a row along an edge of the table or not at all. */
  lemma ApplyIsAnEdge(db: Db, c: Call, id: Uuid)
    requires id in db.rows
    ensures id in Apply(db, c).rows
    ensures var from, to := db.rows[id].status, Apply(db, c).rows[id].status;
      && IsValidTransition(from, to)
      && (from != to && c.Drive? ==> to == Review || to == Status.Failed)
      && (to.Running? && !from.Running? ==> c.Patch? && c.id == id)
  {
  }

  /**
   * A row's life: it starts as assigned, moves along the table's edges only, is completed only from
   * review and never by driveWorker, and stays where it is once it is completed or failed.
   */
  lemma HistoryIsAPath(calls: seq<Call>, k: nat, id: Uuid)
    requires k < |calls|
    ensures var before, after := ApplyAll(calls[..k]), ApplyAll(calls[..k + 1]);
      && (id in before.rows ==> id in after.rows)
      && (id !in before.rows && id in after.rows ==> after.rows[id].status == Assigned)
      && (id in before.rows ==>
            var from, to := before.rows[id].status, after.rows[id].status;
            && IsValidTransition(from, to)
            && (to == Status.Completed && from != Status.Completed ==> from == Review && !calls[k].Drive?)
            && (IsTerminal(from) ==> to == from))
  {
    assert calls[..k + 1][..k] == calls[..k];
    if id in ApplyAll(calls[..k]).rows {
      ApplyIsAnEdge(ApplyAll(calls[..k]), calls[k], id);
    }
  }

  lemma {:induction false} TerminalIsForever(calls: seq<Call>, j: nat, k: nat, id: Uuid)
    requires j <= k <= |calls| && id in ApplyAll(calls[..j]).rows && IsTerminal(ApplyAll(calls[..j]).rows[id].status)
    ensures id in ApplyAll(calls[..k]).rows
      && ApplyAll(calls[..k]).rows[id].status == ApplyAll(calls[..j]).rows[id].status
    decreases k - j
  {
    if j < k {
      TerminalIsForever(calls, j, k - 1, id);
      HistoryIsAPath(calls, k - 1, id);
    }
  }

  /** The call accepts the row's review, or patches it to completed, while it is in review. */
  predicate Completes(db: Db, c: Call, id: Uuid) {
    && id in db.rows && db.rows[id].status == Review && !c.Create? && c.id == id
    && ((c.Decide? && c.accepted) || (c.Patch? && c.to == Status.Completed))
  }

  predicate IsCompleted(db: Db, id: Uuid) {
    id in db.rows && db.rows[id].status == Status.Completed
  }

  lemma ApplyCompletes(db: Db, c: Call, id: Uuid)
    ensures IsCompleted(Apply(db, c), id) <==> IsCompleted(db, id) || Completes(db, c, id)
  {
  }

  predicate CompletesAt(calls: seq<Call>, k: int, id: Uuid) {
    0 <= k < |calls| && Completes(ApplyAll(calls[..k]), calls[k], id)
  }

  /** A row is completed if and only if, while it was in review, it was accepted or patched to completed. */
  lemma {:induction false} CompletedExactly(calls: seq<Call>, id: Uuid)
    ensures IsCompleted(ApplyAll(calls), id) <==> exists k :: CompletesAt(calls, k, id)
  {
    if calls != [] {
      var front, n := calls[..|calls| - 1], |calls| - 1;
      CompletedExactly(front, id);
      ApplyCompletes(ApplyAll(front), calls[n], id);
      assert CompletesAt(calls, n, id) <==> Completes(ApplyAll(front), calls[n], id);
      forall k | 0 <= k < n
        ensures CompletesAt(front, k, id) <==> CompletesAt(calls, k, id)
      {
        assert front[..k] == calls[..k];
      }
      assert forall k :: CompletesAt(front, k, id) ==> k < n;
      assert forall k :: CompletesAt(calls, k, id) ==> 0 <= k <= n;
      hide CompletesAt, IsCompleted, Completes, Apply;
    }
  }

  // ------------------------------------------------------------------ how a row fails

  /**
   * The call ends the row as failed: a cancel, a reject with a reason of a row in review, a patch to
   * failed, or a worker that did not end as completed, on a row that has not ended.
   */
  predicate Fails(db: Db, c: Call, id: Uuid) {
    && id in db.rows && c.id == id && db.rows[id].status != Status.Completed && db.rows[id].status != Status.Failed
    && match c
       case Cancel(_, _) => true
       case Decide(_, accepted, reason, _) => db.rows[id].status == Review && !accepted && reason != ""
       case Patch(_, to, _, _) => to == Status.Failed
       case Drive(_, WaitFailed(_), _) => true
       case Drive(_, Ended(status, _, _), _) => status != WorkerStatus.Completed
       case _ => false
  }

  /** The error message that such a call brings; None leaves the row's own. */
  function Blame(c: Call): Option<string> {
    match c
    case Cancel(_, _) => Some("cancelled by operator")
    case Decide(_, _, reason, _) => Some(reason)
    case Patch(_, _, message, _) => message
    case Drive(_, WaitFailed(error), _) => Some("runtime wait: " + error)
    case Drive(_, Ended(Failed, text, _), _) => if text == "" then None else Some(text)
    case Drive(_, Ended(Cancelled, text, _), _) => Some("worker cancelled: " + text)
    case Drive(_, Ended(Unset, _, _), _) => Some("worker returned unknown status: " + "")
    case Drive(_, Ended(Pending, _, _), _) => Some("worker returned unknown status: " + "pending")
    case Drive(_, Ended(Running, _, _), _) => Some("worker returned unknown status: " + "running")
    case Drive(_, Ended(Other(status), _, _), _) => Some("worker returned unknown status: " + status)
    case _ => None
  }

  function Time(c: Call): int {
    match c
    case Patch(_, _, _, now) => now
    case Decide(_, _, _, now) => now
    case Cancel(_, now) => now
    case Drive(_, _, now) => now
    case _ => 0
  }

  predicate IsFailed(db: Db, id: Uuid) {
    id in db.rows && db.rows[id].status == Status.Failed
  }

  lemma ApplyFails(db: Db, c: Call, id: Uuid)
    requires Sound(db)
    ensures IsFailed(Apply(db, c), id) <==> IsFailed(db, id) || Fails(db, c, id)
    ensures Fails(db, c, id) ==>
      Apply(db, c).rows[id]
      == Execution(Status.Failed, Some(Time(c)), if Blame(c).Some? then Blame(c) else db.rows[id].errorMessage)
  {
  }

  predicate FailsAt(calls: seq<Call>, k: int, id: Uuid) {
    0 <= k < |calls| && Fails(ApplyAll(calls[..k]), calls[k], id)
  }

  /** A row is failed if and only if one of those calls came to it before it had ended. */
  lemma {:induction false} FailedExactly(calls: seq<Call>, id: Uuid)
    ensures IsFailed(ApplyAll(calls), id) <==> exists k :: FailsAt(calls, k, id)
  {
    if calls != [] {
      var front, n := calls[..|calls| - 1], |calls| - 1;
      FailedExactly(front, id);
      SoundAlways(front);
      ApplyFails(ApplyAll(front), calls[n], id);
      assert FailsAt(calls, n, id) <==> Fails(ApplyAll(front), calls[n], id);
      forall k | 0 <= k < n
        ensures FailsAt(front, k, id) <==> FailsAt(calls, k, id)
      {
        assert front[..k] == calls[..k];
      }
      assert forall k :: FailsAt(front, k, id) ==> k < n;
      assert forall k :: FailsAt(calls, k, id) ==> 0 <= k <= n;
      hide FailsAt, IsFailed, Fails, Apply;
    }
  }

  /** An ended row stays as it is, but for the completion time when CreateExecution's second save comes after it. */
  lemma ApplyKeepsEnded(db: Db, c: Call, id: Uuid)
    requires id in db.rows && IsTerminal(db.rows[id].status)
    ensures id in Apply(db, c).rows
    ensures Apply(db, c).rows[id]
      == if c.Resave? && c.id == id then db.rows[id].(completedAt := Some(c.now)) else db.rows[id]
  {
  }

  predicate SavedAgain(calls: seq<Call>, k: nat, id: Uuid) {
    exists j: nat :: k < j < |calls| && calls[j].Resave? && calls[j].id == id
  }

  lemma {:induction false} EndedStays(calls: seq<Call>, k: nat, id: Uuid)
    requires k < |calls| && id in ApplyAll(calls[..k + 1]).rows && IsTerminal(ApplyAll(calls[..k + 1]).rows[id].status)
    ensures var ended, db := ApplyAll(calls[..k + 1]), ApplyAll(calls);
      && id in db.rows && db.rows[id] == ended.rows[id].(completedAt := db.rows[id].completedAt)
      && (!SavedAgain(calls, k, id) ==> db.rows[id] == ended.rows[id])
  {
    var front, n := calls[..|calls| - 1], |calls| - 1;
    if k == n {
      assert calls[..k + 1] == calls;
    } else {
      assert front[..k + 1] == calls[..k + 1] && forall j :: 0 <= j < n ==> front[j] == calls[j];
      EndedStays(front, k, id);
      ApplyKeepsEnded(ApplyAll(front), calls[n], id);
      hide Apply;
    }
  }

  /** A failed row keeps the message and the time that the failing call gave it, the time until such a save. */
  lemma {:induction false} FailureIsRecorded(calls: seq<Call>, k: nat, id: Uuid)
    requires FailsAt(calls, k, id)
    ensures var before, db := ApplyAll(calls[..k]), ApplyAll(calls);
      && id in before.rows && id in db.rows && db.rows[id].status == Status.Failed
      && db.rows[id].errorMessage == (if Blame(calls[k]).Some? then Blame(calls[k]) else before.rows[id].errorMessage)
      && (!SavedAgain(calls, k, id) ==> db.rows[id].completedAt == Some(Time(calls[k])))
  {
    SoundAlways(calls[..k]);
    assert calls[..k + 1][..k] == calls[..k];
    ApplyFails(ApplyAll(calls[..k]), calls[k], id);
    hide Apply, Fails, SavedAgain;
    assert ApplyAll(calls[..k + 1]) == Apply(ApplyAll(calls[..k]), calls[k]);
    EndedStays(calls, k, id);
  }

  /** And so does a completed one; an accept leaves no message. */
  lemma {:induction false} CompletionIsRecorded(calls: seq<Call>, k: nat, id: Uuid)
    requires CompletesAt(calls, k, id)
    ensures var db := ApplyAll(calls);
      && id in db.rows && db.rows[id].status == Status.Completed
      && db.rows[id].errorMessage == (if calls[k].Patch? then calls[k].message else None)
      && (!SavedAgain(calls, k, id) ==> db.rows[id].completedAt == Some(Time(calls[k])))
  {
    assert calls[..k + 1][..k] == calls[..k];
    var after := Apply(ApplyAll(calls[..k]), calls[k]);
    assert ApplyAll(calls[..k + 1]) == after && id in after.rows;
    assert after.rows[id].status == Status.Completed && after.rows[id].completedAt == Some(Time(calls[k]));
    assert after.rows[id].errorMessage == if calls[k].Patch? then calls[k].message else None;
    hide Apply, Completes, SavedAgain;
    EndedStays(calls, k, id);
  }

  // ------------------------------------------------------------------ the worker row

  predicate TouchesWorker(c: Call, id: Uuid) {
    c.id == id && (c.AddWorker? || c.BeginDrive? || c.Drive?)
  }

  /** The worker row `w` after driveWorker has told it of its start or of what Wait brought. */
  predicate Told(w: WorkerRow, c: Call, w': WorkerRow) {
    match c
    case Drive(_, WaitFailed(error), now) =>
      w' == WorkerRow(WorkerStatus.Failed, Some(now), "runtime wait: " + error, w.result)
    case Drive(_, Ended(status, _, result), now) =>
      && w'.completedAt == Some(now)
      && w'.status == (if status.Completed? then WorkerStatus.Completed else WorkerStatus.Failed)
      && w'.message == (if !status.Completed? && Blame(c).Some? then Blame(c).value else w.message)
      && w'.result == (if status.Completed? && result != "" then result else w.result)
    case _ => w' == w.(status := WorkerStatus.Running)
  }

  lemma CallTells(db: Db, c: Call, id: Uuid)
    requires id in db.workers
    ensures id in Apply(db, c).workers
    ensures TouchesWorker(c, id) && !c.AddWorker? ==> Told(db.workers[id], c, Apply(db, c).workers[id])
    ensures !TouchesWorker(c, id) ==> Apply(db, c).workers[id] == db.workers[id]
  {
  }

  /** driveWorker's end tells the worker row what Wait brought, and nothing but its start or end touches the row. */
  lemma {:induction false} WorkerRowIsRecorded(calls: seq<Call>, k: nat, id: Uuid)
    requires k < |calls| && TouchesWorker(calls[k], id) && !calls[k].AddWorker? && id in ApplyAll(calls[..k]).workers
    requires forall j :: k < j < |calls| ==> !TouchesWorker(calls[j], id)
    ensures id in ApplyAll(calls).workers
    ensures Told(ApplyAll(calls[..k]).workers[id], calls[k], ApplyAll(calls).workers[id])
  {
    hide Apply, Told, TouchesWorker;
    var front, n := calls[..|calls| - 1], |calls| - 1;
    if k < n {
      assert front[..k] == calls[..k] && forall j :: 0 <= j < n ==> front[j] == calls[j];
      WorkerRowIsRecorded(front, k, id);
      assert !TouchesWorker(calls[n], id);
    }
    CallTells(ApplyAll(front), calls[n], id);
  }

  // ------------------------------------------------------------------ what a reply means

  /**
   * A call answered with Done has left the row in the status it asked for; any other answer, and it has
   * changed no row.
   */
  lemma {:induction false} DoneMeansMoved(calls: seq<Call>, c: Call)
    requires c.Patch? || c.Decide? || c.Cancel?
    ensures var db, after := ApplyAll(calls), Apply(ApplyAll(calls), c);
      var asked := if c.Patch? then c.to else if c.Decide? && c.accepted then Status.Completed else Status.Failed;
      && (ReplyTo(db, c) == Done ==> c.id in after.rows && after.rows[c.id].status == asked)
      && (ReplyTo(db, c) != Done ==> after == db)
      && (c.Patch? && ReplyTo(db, c) == Done && db.rows[c.id].status != c.to ==>
            var now := after.rows[c.id];
            && now.completedAt == (if c.to == Status.Completed || c.to == Status.Failed then Some(c.now) else None)
            && now.errorMessage == (if c.message.Some? then c.message
                                    else if c.to == Status.Failed then db.rows[c.id].errorMessage else None))
      && (c.Patch? && ReplyTo(db, c) == Done && db.rows[c.id].status == c.to ==> after == db)
      && after.workers == db.workers && forall id :: id != c.id ==>
           (id in after.rows <==> id in db.rows) && (id in db.rows ==> after.rows[id] == db.rows[id])
  {
    SoundAlways(calls);
    var db := ApplyAll(calls);
    if c.id in db.rows {
      assert db.rows[c.id := db.rows[c.id]] == db.rows;
    }
    hide ApplyAll;
  }

  /** And which answer it is. */
  lemma {:induction false} RepliesExactly(calls: seq<Call>, c: Call)
    requires c.Patch? || c.Decide? || c.Cancel?
    ensures var db, r := ApplyAll(calls), ReplyTo(ApplyAll(calls), c);
      && (r == NoSuchExecution <==> c.id !in db.rows)
      && (c.id in db.rows ==>
            var status := db.rows[c.id].status;
            && (c.Patch? ==>
                  r == if || status == c.to
                          || (status == Queued && (c.to == Assigned || c.to == Status.Failed))
                          || (status == Assigned && (c.to == Status.Running || c.to == Status.Failed || c.to == Queued))
                          || (status == Status.Running && (c.to == Review || c.to == Status.Failed))
                          || (status == Review && (c.to == Status.Completed || c.to == Status.Failed))
                       then Done else InvalidTransition)
            && (c.Cancel? ==> r == if status == Status.Completed
                 || status == Status.Failed then InvalidTransition else Done)
            && (c.Decide? ==> r == if status != Review then InvalidTransition
                                   else if !c.accepted && c.reason == "" then ReasonRequired else Done))
  {
    SoundAlways(calls);
    hide ApplyAll;
  }

  /** No review action is needed: three patches take a new row to completed. */
  lemma PatchesCompleteWithoutReview(id: Uuid, now: int)
    ensures var calls := [Create(id), Patch(id, Status.Running, None, now), Patch(id, Review, None, now),
      Patch(id, Status.Completed, None, now)];
      IsCompleted(ApplyAll(calls), id)
  {
    var c1, c2 := Create(id), Patch(id, Status.Running, None, now);
    var c3, c4 := Patch(id, Review, None, now), Patch(id, Status.Completed, None, now);
    assert [c1, c2, c3, c4][..3] == [c1, c2, c3] && [c1, c2, c3][..2] == [c1, c2] && [c1, c2][..1] == [c1]
        && [c1][..0] == [];
    assert ApplyAll([c1]) == Apply(EMPTY, c1) && ApplyAll([c1]).rows[id].status == Assigned;
    assert ApplyAll([c1, c2]) == Apply(ApplyAll([c1]), c2) && ApplyAll([c1, c2]).rows[id].status == Status.Running;
    assert ApplyAll([c1, c2, c3]) == Apply(ApplyAll([c1, c2]), c3) && ApplyAll([c1, c2, c3]).rows[id].status == Review;
  }

  predicate PatchedToRunning(calls: seq<Call>, id: Uuid) {
    exists k :: 0 <= k < |calls| && calls[k].Patch? && calls[k].id == id && calls[k].to == Status.Running
  }

  /**
   * Rows are created as assigned and nothing but a client's PATCH moves one to running, so without
   * that PATCH no row is ever in running, review or completed, whatever its worker did.
   */
  lemma {:induction false} OnlyAPatchStartsAnExecution(calls: seq<Call>, id: Uuid)
    requires var db := ApplyAll(calls);
      id in db.rows && (db.rows[id].status.Running? || db.rows[id].status.Review? || db.rows[id].status.Completed?)
    ensures PatchedToRunning(calls, id)
  {
    if calls != [] {
      var front, c := calls[..|calls| - 1], calls[|calls| - 1];
      var before := ApplyAll(front);
      if id in before.rows {
        ApplyIsAnEdge(before, c, id);
        if !before.rows[id].status.Queued? && !before.rows[id].status.Assigned? {
          if before.rows[id].status.Failed? || before.rows[id].status.Other? {
            SoundAlways(front);
          } else {
            OnlyAPatchStartsAnExecution(front, id);
            var k :| 0 <= k < |front| && front[k].Patch? && front[k].id == id && front[k].to == Status.Running;
            assert calls[k] == front[k];
          }
        }
      }
    }
  }

  /**
   * In any run: driveWorker's transition is taken if and only if the row is running, or failing is what
   * it asks for and the row is not completed. Unless a PATCH moved the row to running before, a worker
   * that completes changes no row at all, and only its worker row says completed.
   */
  lemma {:induction false} DriveIsTakenExactly(calls: seq<Call>, id: Uuid, result: WaitResult, now: int)
    requires id in ApplyAll(calls).rows
    ensures var db, c, to := ApplyAll(calls), Drive(id, result, now), DriveTarget(result);
      var status := db.rows[id].status;
      && (ReplyTo(db, c) == Done <==> status.Running? || status == to || (to == Status.Failed && !status.Completed?))
      && (ReplyTo(db, c) == Done <==> Apply(db, c).rows[id].status == to)
      && (!PatchedToRunning(calls, id) && to == Review ==>
            Apply(db, c).rows == db.rows
                && (id in db.workers ==> Apply(db, c).workers[id].status == WorkerStatus.Completed))
  {
    var db := ApplyAll(calls);
    SoundAlways(calls);
    if db.rows[id].status.Running? || db.rows[id].status.Review? || db.rows[id].status.Completed? {
      OnlyAPatchStartsAnExecution(calls, id);
    }
    assert db.rows[id := db.rows[id]] == db.rows;
    hide ApplyAll, PatchedToRunning;
  }

  // ------------------------------------------------------------------ read and write taken apart

  /**
   * A call between its read and its write: one that asks for a transition, or CreateExecution's second
   * save, which writes back, unchecked, the status and error message it finds.
   */
  datatype Pending =
    | Reading(id: Uuid, to: Status, message: Option<string>)
    | Saving(id: Uuid)
    | Writing(id: Uuid, read: Status, to: Status, message: Option<string>)
    | Over

  datatype Race = Race(rows: map<Uuid, Execution>, calls: seq<Pending>)

  /** A call one half at a time. */
  function Half(s: Race, i: nat, now: int): Race {
    if i >= |s.calls| then s
    else match s.calls[i]
      case Reading(id, to, message) =>
        if id in s.rows && s.rows[id].status != to && IsValidTransition(s.rows[id].status, to)
        then s.(calls := s.calls[i := Writing(id, s.rows[id].status, to, message)])
        else s.(calls := s.calls[i := Over])
      case Saving(id) =>
        if id in s.rows
        then s.(calls := s.calls[i := Writing(id, s.rows[id].status, s.rows[id].status, s.rows[id].errorMessage)])
        else s.(calls := s.calls[i := Over])
      case Writing(id, read, to, message) =>
        s.(rows := if id in s.rows then s.rows[id := Written(s.rows[id], to, message, now)] else s.rows,
           calls := s.calls[i := Over])
      case Over => s
  }

  ghost predicate ReadsLegal(s: Race) {
    forall i :: 0 <= i < |s.calls| && s.calls[i].Writing? ==> IsValidTransition(s.calls[i].read, s.calls[i].to)
  }

  lemma HalfKeepsReads(s: Race, i: nat, now: int)
    requires ReadsLegal(s)
    ensures ReadsLegal(Half(s, i, now))
  {
  }

  /** A write whose row has kept the status that was read is an edge of the table. */
  lemma UndisturbedWriteIsLegal(s: Race, i: nat, now: int, id: Uuid)
    requires ReadsLegal(s) && i < |s.calls| && id in s.rows
    requires s.calls[i].Writing? && s.calls[i].id == id ==> s.rows[id].status == s.calls[i].read
    ensures id in Half(s, i, now).rows && IsValidTransition(s.rows[id].status, Half(s, i, now).rows[id].status)
    ensures IsTerminal(s.rows[id].status) ==> Half(s, i, now).rows[id].status == s.rows[id].status
  {
  }

  function Halves(s: Race, schedule: seq<(nat, int)>): Race {
    if schedule == [] then s
    else
      var last := schedule[|schedule| - 1];
      Half(Halves(s, schedule[..|schedule| - 1]), last.0, last.1)
  }

  /** Every write of the schedule finds its row in the status its call had read. */
  ghost predicate Undisturbed(s: Race, schedule: seq<(nat, int)>) {
    forall k :: 0 <= k < |schedule| ==> WriteIsFresh(Halves(s, schedule[..k]), schedule[k].0)
  }

  predicate WriteIsFresh(s: Race, i: nat) {
    i < |s.calls| && s.calls[i].Writing? && s.calls[i].id in s.rows ==> s.rows[s.calls[i].id].status == s.calls[i].read
  }

  /** Over a whole undisturbed schedule a terminal row keeps its status, and each step is an edge. */
  lemma {:induction false} UndisturbedRunKeepsTerminals(s: Race, schedule: seq<(nat, int)>, id: Uuid)
    requires ReadsLegal(s) && Undisturbed(s, schedule) && id in s.rows
    ensures ReadsLegal(Halves(s, schedule)) && id in Halves(s, schedule).rows
    ensures IsTerminal(s.rows[id].status) ==> Halves(s, schedule).rows[id].status == s.rows[id].status
    ensures schedule != [] ==>
      var before := Halves(s, schedule[..|schedule| - 1]);
      id in before.rows && IsValidTransition(before.rows[id].status, Halves(s, schedule).rows[id].status)
  {
    if schedule != [] {
      var front, last := schedule[..|schedule| - 1], schedule[|schedule| - 1];
      assert forall k :: 0 <= k < |front| ==> front[..k] == schedule[..k];
      UndisturbedRunKeepsTerminals(s, front, id);
      var before := Halves(s, front);
      assert WriteIsFresh(before, last.0);
      HalfKeepsReads(before, last.0, last.1);
      if last.0 < |before.calls| {
        UndisturbedWriteIsLegal(before, last.0, last.1, id);
      }
      hide Half, ReadsLegal, Targets;
    }
  }

  // ------------------------------------------------------------------ which write breaks the table

  predicate WritesTo(s: Race, i: nat, id: Uuid) {
    i < |s.calls| && s.calls[i].Writing? && s.calls[i].id == id && id in s.rows
  }

  /** What another call wrote last to the row since call i's latest half; None if none did. */
  function Overtaker(s: Race, schedule: seq<(nat, int)>, i: nat, id: Uuid): Option<Status> {
    if schedule == [] then None
    else
      var front, j := schedule[..|schedule| - 1], schedule[|schedule| - 1].0;
      if j == i then None
      else if WritesTo(Halves(s, front), j, id) then Some(Halves(s, front).calls[j].to)
      else Overtaker(s, front, i, id)
  }

  /** Call i is about to write, and what has overtaken it allows no transition to its target. */
  predicate Overtaken(s: Race, schedule: seq<(nat, int)>, i: nat, id: Uuid) {
    var t, w := Halves(s, schedule), Overtaker(s, schedule, i, id);
    WritesTo(t, i, id) && w.Some? && t.calls[i].to != w.value && t.calls[i].to !in Targets(w.value)
  }

  /** No call has read yet. */
  predicate NoneBegun(s: Race) {
    forall i :: 0 <= i < |s.calls| ==> !s.calls[i].Writing?
  }

  /** At a write the row is where the overtaker put it, or else where the call had read it. */
  lemma {:induction false} RowAtWrite(s: Race, schedule: seq<(nat, int)>, i: nat)
    requires NoneBegun(s)
    ensures var t := Halves(s, schedule);
      i < |t.calls| && t.calls[i].Writing? ==>
        var id, w := t.calls[i].id, Overtaker(s, schedule, i, t.calls[i].id);
        && id in t.rows && t.rows[id].status == (if w.Some? then w.value else t.calls[i].read)
        && IsValidTransition(t.calls[i].read, t.calls[i].to)
  {
    if schedule != [] {
      RowAtWrite(s, schedule[..|schedule| - 1], i);
      hide IsValidTransition, IsTerminal;
    }
  }

  /**
   * In any schedule of overlapping calls, call i's write breaks the table if and only if some call has
   * written to the row since call i's read and the last of these writes is neither to call i's target
   * nor to a status that the table lets go there. It takes a row out of a terminal status exactly when
   * that overtaking write ended the row elsewhere; and a row whose completion time was in step with
   * its status loses that exactly when an ended row is moved on.
   */
  lemma {:induction false} WriteLeavesTheTableExactly(s: Race, schedule: seq<(nat, int)>, i: nat, now: int)
    requires NoneBegun(s)
    requires var t := Halves(s, schedule); i < |t.calls| && t.calls[i].Writing?
    ensures var t := Halves(s, schedule);
      var id, to, w := t.calls[i].id, t.calls[i].to, Overtaker(s, schedule, i, t.calls[i].id);
      && id in t.rows && id in Half(t, i, now).rows
      && var before, after := t.rows[id], Half(t, i, now).rows[id];
      && (!IsValidTransition(before.status, after.status) <==> w.Some? && to != w.value && to !in Targets(w.value))
      && (IsTerminal(before.status) && after.status != before.status <==>
           w.Some? && IsTerminal(w.value) && to != w.value)
      && (InStep(before) ==> (!InStep(after) <==> w.Some? && IsTerminal(w.value) && !IsTerminal(to)))
  {
    RowAtWrite(s, schedule, i);
    hide Halves, Overtaker;
  }

  predicate InStep(e: Execution) {
    e.completedAt.Some? <==> IsTerminal(e.status)
  }

  /** Every step of the schedule moves the row along an edge of the table or not at all. */
  ghost predicate KeepsToTable(s: Race, schedule: seq<(nat, int)>, id: Uuid) {
    forall k :: 0 <= k < |schedule| ==> EdgeAt(s, schedule, k, id)
  }

  predicate EdgeAt(s: Race, schedule: seq<(nat, int)>, k: nat, id: Uuid)
    requires k < |schedule|
  {
    var before, after := Halves(s, schedule[..k]), Halves(s, schedule[..k + 1]);
    id in before.rows && id in after.rows && IsValidTransition(before.rows[id].status, after.rows[id].status)
  }

  lemma {:induction false} RowsStay(s: Race, schedule: seq<(nat, int)>, id: Uuid)
    requires id in s.rows
    ensures id in Halves(s, schedule).rows
  {
    if schedule != [] {
      RowsStay(s, schedule[..|schedule| - 1], id);
    }
  }

  lemma HalfIsAnEdgeExactly(s: Race, schedule: seq<(nat, int)>, k: nat, id: Uuid)
    requires NoneBegun(s) && id in s.rows && k < |schedule|
    ensures EdgeAt(s, schedule, k, id) <==> !Overtaken(s, schedule[..k], schedule[k].0, id)
  {
    var t, i, now := Halves(s, schedule[..k]), schedule[k].0, schedule[k].1;
    assert schedule[..k + 1][..k] == schedule[..k];
    assert Halves(s, schedule[..k + 1]) == Half(t, i, now);
    RowsStay(s, schedule[..k], id);
    if WritesTo(t, i, id) {
      WriteLeavesTheTableExactly(s, schedule[..k], i, now);
    }
    hide Halves, Overtaker, Targets;
  }

  /** A schedule of overlapping calls keeps a row to the table if and only if no write to it is so overtaken. */
  lemma ScheduleKeepsTheTableExactly(s: Race, schedule: seq<(nat, int)>, id: Uuid)
    requires NoneBegun(s) && id in s.rows
    ensures KeepsToTable(s, schedule, id)
            <==> forall k :: 0 <= k < |schedule| ==> !Overtaken(s, schedule[..k], schedule[k].0, id)
  {
    forall k | 0 <= k < |schedule|
      ensures EdgeAt(s, schedule, k, id) <==> !Overtaken(s, schedule[..k], schedule[k].0, id)
    {
      HalfIsAnEdgeExactly(s, schedule, k, id);
    }
    hide EdgeAt, Overtaken;
  }

  /**
   * CreateExecution's second save can be so overtaken: it puts an execution that a client has started back to
   * assigned.
   */
  lemma SaveUndoesAStart(id: Uuid)
    ensures var s := Race(map[id := Execution(Assigned, None, None)], [Saving(id), Reading(id, Status.Running, None)]);
      var s3 := Halves(s, [(0, 1), (1, 2), (1, 3)]);
      && NoneBegun(s) && id in s3.rows && s3.rows[id].status == Status.Running
      && Overtaken(s, [(0, 1), (1, 2), (1, 3)], 0, id)
      && id in Half(s3, 0, 4).rows && Half(s3, 0, 4).rows[id].status == Assigned
  {
    var s := Race(map[id := Execution(Assigned, None, None)], [Saving(id), Reading(id, Status.Running, None)]);
    assert [(0, 1), (1, 2), (1, 3)][..2] == [(0, 1), (1, 2)] && [(0, 1), (1, 2)][..1] == [(0, 1)];
    var begin: seq<(nat, int)> := [(0, 1)];
    assert begin[..0] == [] && Halves(s, []) == s;
    var s1 := Halves(s, begin);
    assert s1 == Half(s, 0, 1);
    assert s1 == s.(calls := [Writing(id, Assigned, Assigned, None), Reading(id, Status.Running, None)]);
    var s2 := Halves(s, [(0, 1), (1, 2)]);
    assert s2 == s.(calls := [Writing(id, Assigned, Assigned, None), Writing(id, Assigned, Status.Running, None)]);
    var s3 := Halves(s, [(0, 1), (1, 2), (1, 3)]);
    assert s3.calls == [Writing(id, Assigned, Assigned, None), Over];
  }

  /** An accept of the review that was read before an operator's cancel undoes it: failed becomes completed. */
  lemma RaceLeavesATerminalState(id: Uuid)
    ensures var s := Race(map[id := Execution(Review, None, None)],
      [Reading(id, Status.Completed, None), Reading(id, Status.Failed, Some(OPERATOR_CANCEL))]);
      var s3 := Half(Half(Half(s, 0, 1), 1, 2), 1, 3);
      var s4 := Half(s3, 0, 4);
      id in s3.rows && s3.rows[id].status == Status.Failed && id in s4.rows && s4.rows[id].status == Status.Completed
  {
    var s := Race(map[id := Execution(Review, None, None)],
        [Reading(id, Status.Completed, None), Reading(id, Status.Failed, Some(OPERATOR_CANCEL))]);
    var s1 := Half(s, 0, 1);
    assert s1.calls == [Writing(id, Review, Status.Completed, None), Reading(id, Status.Failed, Some(OPERATOR_CANCEL))];
    var s2 := Half(s1, 1, 2);
    assert s2.calls == [Writing(id, Review, Status.Completed, None),
        Writing(id, Review, Status.Failed, Some(OPERATOR_CANCEL))];
    var s3 := Half(s2, 1, 3);
    assert s3.calls == [Writing(id, Review, Status.Completed, None), Over];
  }
}
