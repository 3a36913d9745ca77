/**
 * Optimistic concurrency on agents (src/internal/service/agent.go over the agent store in
 * src/internal/store/memory.go): any number of UpdateAgent and RetireAgent calls, each store call
 * one atomic step. Reads copy the row.
 */
module Agents {
  import opened Specs

  datatype Agent = Agent(role: string, status: string, metadata: string, capabilities: seq<string>, retired: bool,
      version: int)

  /** A field left out of the request is None; `valid` says that the ones given pass validation. */
  datatype Update = Update(
    version: Option<int>, role: Option<string>, status: Option<string>, metadata: Option<string>,
    capabilities: Option<seq<string>>, valid: bool)

  datatype Reply = NotFound | AlreadyRetired | VersionRequired | VersionConflict | Invalid | Committed

  /** An UpdateAgent call between two store calls. */
  datatype Call =
    | Reading(id: Uuid, u: Update)
    | Ready(id: Uuid, u: Update, read: Agent)      // checks passed; Update or SetCapabilities ahead
    | Rereading(id: Uuid, u: Update, read: Agent)  // capabilities set, second read ahead
    | Merged(id: Uuid, u: Update, read: Agent, row: Agent)  // second read merged, Update ahead
    | Ended(id: Uuid, u: Update, reply: Reply)

  datatype System = System(rows: map<Uuid, Agent>, calls: seq<Call>)

  datatype Step = Create(id: Uuid, a: Agent) | Begin(id: Uuid, u: Update) | Advance(i: nat) | Retire(id: Uuid)

  function Pick(field: Option<string>, otherwise: string): string {
    if field.Some? then field.value else otherwise
  }

  /** The request's fields over a row. */
  function Edit(a: Agent, u: Update): Agent {
    a.(role := Pick(u.role, a.role), status := Pick(u.status, a.status), metadata := Pick(u.metadata, a.metadata))
  }

  /** The second read with role, status and metadata of the edited first one. */
  function Merge(again: Agent, edited: Agent): Agent {
    again.(role := edited.role, status := edited.status, metadata := edited.metadata)
  }

  function Check(rows: map<Uuid, Agent>, id: Uuid, u: Update): Reply {
    if id !in rows then NotFound
    else if rows[id].retired then AlreadyRetired
    else if u.version.None? then VersionRequired
    else if u.version.value != rows[id].version then VersionConflict
    else if !u.valid || (u.capabilities.Some? && u.capabilities.value == []) then Invalid
    else Committed
  }

  // ------------------------------------------------------------------ the store and the service

  class AgentService {
    var rows: map<Uuid, Agent>

    constructor ()
      ensures rows == map[]
    {
      rows := map[];
    }

    /** The store's Update. */
    method StoreUpdate(id: Uuid, a: Agent) returns (r: Reply)
      modifies this
      ensures r == if id !in old(rows) then NotFound else if old(rows)[id].version != a.version then VersionConflict
        else Committed
      ensures rows == if r == Committed then old(rows)[id := a.(version := a.version + 1)] else old(rows)
    {
      if id !in rows {
        return NotFound;
      }
      if rows[id].version != a.version {
        return VersionConflict;
      }
      rows := rows[id := a.(version := a.version + 1)];
      return Committed;
    }

    method SetCapabilities(id: Uuid, names: seq<string>) returns (found: bool)
      modifies this
      ensures found == (id in old(rows))
      ensures rows == if found then old(rows)[id := WithCapabilities(old(rows)[id], names)] else old(rows)
      ensures found ==> var a := old(rows)[id];
        rows[id] == Agent(a.role, a.status, a.metadata, names, a.retired, a.version + 1)
    {
      if id !in rows {
        return false;
      }
      rows := rows[id := rows[id].(capabilities := names)];
      rows := rows[id := rows[id].(version := rows[id].version + 1)];
      return true;
    }

    method SoftDelete(id: Uuid) returns (found: bool)
      modifies this
      ensures found == (id in old(rows))
      ensures rows == if found then old(rows)[id := Retired(old(rows)[id])] else old(rows)
      ensures found ==> var a := old(rows)[id];
        rows[id] == Agent(a.role, "retired", a.metadata, a.capabilities, true, a.version + 1)
    {
      if id !in rows {
        return false;
      }
      rows := rows[id := rows[id].(status := "retired", retired := true)];
      rows := rows[id := rows[id].(version := rows[id].version + 1)];
      return true;
    }

    /** By itself a call whose checks pass commits: one version on, two when it rewrites capabilities. */
    method UpdateAgent(id: Uuid, u: Update) returns (r: Reply)
      modifies this
      ensures r == Check(old(rows), id, u)
      ensures r != Committed ==> rows == old(rows)
      ensures r == Committed ==>
        var a := old(rows)[id];
        rows == old(rows)[id :=
          if u.capabilities.Some? then Edit(a, u).(capabilities := u.capabilities.value, version := a.version + 2)
          else Edit(a, u).(version := a.version + 1)]
      ensures r == Committed ==> id in rows && Requested(rows[id], old(rows)[id], u)
      ensures r == NotFound <==> id !in old(rows)
      ensures r == AlreadyRetired <==> id in old(rows) && old(rows)[id].retired
      ensures r == VersionRequired <==> id in old(rows) && !old(rows)[id].retired && u.version == None
      ensures r == Committed <==>
        && id in old(rows) && !old(rows)[id].retired && u.version == Some(old(rows)[id].version)
        && u.valid && u.capabilities != Some([])
      ensures r == VersionConflict <==>
        id in old(rows) && !old(rows)[id].retired && u.version.Some? && u.version.value != old(rows)[id].version
    {
      if id !in rows {
        return NotFound;
      }
      var existing := rows[id];
      if existing.retired {
        return AlreadyRetired;
      }
      if u.version == None {
        return VersionRequired;
      }
      if u.version.value != existing.version {
        return VersionConflict;
      }
      if !u.valid || u.capabilities == Some([]) {
        return Invalid;
      }
      if u.role.Some? {
        existing := existing.(role := u.role.value);
      }
      if u.status.Some? {
        existing := existing.(status := u.status.value);
      }
      if u.metadata.Some? {
        existing := existing.(metadata := u.metadata.value);
      }
      if u.capabilities.Some? {
        var found := SetCapabilities(id, u.capabilities.value);
        var again := rows[id];
        again := again.(role := existing.role, status := existing.status, metadata := existing.metadata);
        r := StoreUpdate(id, again);
      } else {
        r := StoreUpdate(id, existing);
      }
    }
  }

  /** `b` has each field that the request gives, and the others as in `a`; the retired flag is no field of a request. */
  predicate Requested(b: Agent, a: Agent, u: Update) {
    && b.role == (if u.role.Some? then u.role.value else a.role)
    && b.status == (if u.status.Some? then u.status.value else a.status)
    && b.metadata == (if u.metadata.Some? then u.metadata.value else a.metadata)
    && b.capabilities == (if u.capabilities.Some? then u.capabilities.value else a.capabilities)
    && b.retired == a.retired
  }

  function WithCapabilities(a: Agent, names: seq<string>): Agent {
    a.(capabilities := names, version := a.version + 1)
  }

  function Retired(a: Agent): Agent {
    a.(status := "retired", retired := true, version := a.version + 1)
  }

  // ------------------------------------------------------------------ steps

  predicate Enabled(s: System, step: Step) {
    match step
    case Create(id, _) => id !in s.rows
    case Begin(_, _) => true
    case Advance(i) => i < |s.calls| && !s.calls[i].Ended?
    case Retire(id) => id in s.rows
  }

  function Goto(s: System, i: nat, call: Call): System
    requires i < |s.calls|
  {
    s.(calls := s.calls[i := call])
  }

  /** The store's Update of `a` for call i. */
  function Commit(s: System, i: nat, a: Agent): System
    requires i < |s.calls|
  {
    var id, u := s.calls[i].id, s.calls[i].u;
    if id !in s.rows then Goto(s, i, Ended(id, u, NotFound))
    else if s.rows[id].version != a.version then Goto(s, i, Ended(id, u, VersionConflict))
    else Goto(s, i, Ended(id, u, Committed)).(rows := s.rows[id := a.(version := a.version + 1)])
  }

  function DoAdvance(s: System, i: nat): System
    requires Enabled(s, Advance(i))
  {
    match s.calls[i]
    case Reading(id, u) =>
      var r := Check(s.rows, id, u);
      Goto(s, i, if r == Committed then Ready(id, u, s.rows[id]) else Ended(id, u, r))
    case Ready(id, u, read) =>
      if u.capabilities.None? then Commit(s, i, Edit(read, u))
      else if id !in s.rows then Goto(s, i, Ended(id, u, NotFound))
      else Goto(s, i, Rereading(id, u, read)).(rows := s.rows[id := WithCapabilities(s.rows[id], u.capabilities.value)])
    case Rereading(id, u, read) =>
      Goto(s, i, if id in s.rows then Merged(id, u, read, Merge(s.rows[id], Edit(read, u))) else Ended(id, u, NotFound))
    case Merged(id, u, read, row) => Commit(s, i, row)
  }

  function Do(s: System, step: Step): System
    requires Enabled(s, step)
  {
    match step
    case Create(id, a) => s.(rows := s.rows[id := a])
    case Begin(id, u) => s.(calls := s.calls + [Reading(id, u)])
    case Advance(i) => DoAdvance(s, i)
    case Retire(id) => s.(rows := s.rows[id := Retired(s.rows[id])])
  }

  function Try(s: System, step: Step): System {
    if Enabled(s, step) then Do(s, step) else s
  }

  /** The state after trying `steps` in order; a step that is not enabled changes nothing. */
  function Run(steps: seq<Step>): System {
    if steps == [] then System(map[], []) else Try(Run(steps[..|steps| - 1]), steps[|steps| - 1])
  }

  // ------------------------------------------------------------------ the invariant

  /** A copy is no newer than its row, and equal to it while the version is the same. */
  predicate Behind(rows: map<Uuid, Agent>, id: Uuid, copy: Agent) {
    id in rows && copy.version <= rows[id].version && (copy.version == rows[id].version ==> copy == rows[id])
  }

  /** Capabilities are set; while that is the only write since the first read, the row is that read with them. */
  predicate Rewritten(rows: map<Uuid, Agent>, id: Uuid, u: Update, read: Agent) {
    && id in rows && u.capabilities.Some? && read.version < rows[id].version
    && (rows[id].version == read.version + 1 ==> rows[id] == WithCapabilities(read, u.capabilities.value))
  }

  predicate CallSound(rows: map<Uuid, Agent>, call: Call) {
    match call
    case Reading(_, _) => true
    case Ready(id, u, read) =>
      Behind(rows, id, read) && u.version == Some(read.version) && !read.retired && u.valid
          && u.capabilities != Some([])
    case Rereading(id, u, read) => Rewritten(rows, id, u, read)
    case Merged(id, u, read, row) =>
      && Rewritten(rows, id, u, read) && row.version <= rows[id].version
      && (row.version == rows[id].version ==> row == Merge(rows[id], Edit(read, u)))
    case Ended(id, u, reply) => reply == Committed && u.capabilities.None? ==>
        id in rows && u.version.Some? && u.version.value < rows[id].version
  }

  /** A plain call committed. */
  predicate Won(call: Call) {
    call.Ended? && call.reply == Committed && call.u.capabilities.None? && call.u.version.Some?
  }

  ghost predicate Safe(s: System) {
    && (forall i :: 0 <= i < |s.calls| ==> CallSound(s.rows, s.calls[i]))
    && (forall i, j ::
          0 <= i < j < |s.calls| && Won(s.calls[i]) && Won(s.calls[j]) && s.calls[i].id == s.calls[j].id ==>
          s.calls[i].u.version != s.calls[j].u.version)
  }

  /** A row is only ever replaced by one with the next version. */
  predicate Later(rows: map<Uuid, Agent>, rows': map<Uuid, Agent>, id: Uuid) {
    id in rows ==> id in rows' && (rows'[id] == rows[id] || rows'[id].version == rows[id].version + 1)
  }

  lemma CallStaysSound(rows: map<Uuid, Agent>, rows': map<Uuid, Agent>, call: Call)
    requires CallSound(rows, call) && Later(rows, rows', call.id)
    ensures CallSound(rows', call)
  {
  }

  lemma StepMovesOn(s: System, step: Step, id: Uuid)
    requires Safe(s) && Enabled(s, step)
    ensures Later(s.rows, Do(s, step).rows, id)
  {
    if step.Advance? {
      assert CallSound(s.rows, s.calls[step.i]);
    }
  }

  lemma AdvanceKeeps(s: System, i: nat)
    requires Safe(s) && Enabled(s, Advance(i))
    ensures Safe(DoAdvance(s, i))
  {
    var t := DoAdvance(s, i);
    assert CallSound(s.rows, s.calls[i]);
    assert CallSound(t.rows, t.calls[i]);
    assert |t.calls| == |s.calls| && t.calls[i].id == s.calls[i].id && forall j :: 0 <= j < |s.calls| && j != i ==>
        t.calls[j] == s.calls[j];
    assert Won(t.calls[i]) ==> t.calls[i].id in s.rows && t.calls[i].u.version == Some(s.rows[t.calls[i].id].version);
    forall j | 0 <= j < |s.calls| && j != i
      ensures CallSound(t.rows, t.calls[j])
      ensures Won(s.calls[j]) && Won(t.calls[i]) && s.calls[j].id == t.calls[i].id ==>
        s.calls[j].u.version != t.calls[i].u.version
    {
      StepMovesOn(s, Advance(i), s.calls[j].id);
      CallStaysSound(s.rows, t.rows, s.calls[j]);
      assert CallSound(s.rows, s.calls[j]);
    }
    hide DoAdvance;
  }

  lemma StepKeeps(s: System, step: Step)
    requires Safe(s) && Enabled(s, step)
    ensures Safe(Do(s, step))
  {
    if step.Advance? {
      AdvanceKeeps(s, step.i);
    } else {
      var t := Do(s, step);
      forall j | 0 <= j < |s.calls|
        ensures CallSound(t.rows, s.calls[j])
      {
        StepMovesOn(s, step, s.calls[j].id);
        CallStaysSound(s.rows, t.rows, s.calls[j]);
      }
    }
  }

  lemma {:induction false} SafeAlways(steps: seq<Step>)
    ensures Safe(Run(steps))
  {
    if steps != [] {
      SafeAlways(steps[..|steps| - 1]);
      if Enabled(Run(steps[..|steps| - 1]), steps[|steps| - 1]) {
        StepKeeps(Run(steps[..|steps| - 1]), steps[|steps| - 1]);
      }
      hide Safe, Enabled, Do;
    }
  }

  // ------------------------------------------------------------------ what holds in every run

  /** Among the plain calls of a run that carry the same version of an agent at most one commits. */
  lemma OneCommitPerVersion(steps: seq<Step>, i: nat, j: nat)
    requires var s := Run(steps);
      i < |s.calls| && j < |s.calls| && Won(s.calls[i]) && Won(s.calls[j])
      && s.calls[i].id == s.calls[j].id && s.calls[i].u.version == s.calls[j].u.version
    ensures i == j
  {
    SafeAlways(steps);
  }

  /** Every step of a run leaves an agent as it is or takes its version up by one, and no agent goes. */
  lemma {:induction false} VersionsOnlyGrow(steps: seq<Step>, step: Step, id: Uuid)
    requires id in Run(steps).rows
    ensures var s, t := Run(steps), Run(steps + [step]);
      id in t.rows && (t.rows[id] == s.rows[id] || t.rows[id].version == s.rows[id].version + 1)
  {
    assert (steps + [step])[..|steps|] == steps;
    SafeAlways(steps);
    if Enabled(Run(steps), step) {
      StepMovesOn(Run(steps), step, id);
    }
  }

  /**
   * A plain call that commits changes the row as it is then, not the copy it had read: no update in between
   * is lost, and a retired agent is not written.
   */
  lemma PlainCommitLosesNothing(steps: seq<Step>, i: nat)
    requires var s := Run(steps); i < |s.calls| && s.calls[i].Ready? && s.calls[i].u.capabilities.None?
    ensures var s := Run(steps);
      var id, u, t := s.calls[i].id, s.calls[i].u, Run(steps + [Advance(i)]);
      && id in s.rows && |t.calls| == |s.calls|
      && (Won(t.calls[i]) <==> u.version == Some(s.rows[id].version))
      && t.calls[i] == Ended(id, u, if u.version == Some(s.rows[id].version) then Committed else VersionConflict)
      && (t.rows == if Won(t.calls[i]) then s.rows[id := Edit(s.rows[id], u).(version := s.rows[id].version + 1)]
                    else s.rows)
      && (Won(t.calls[i]) ==>
            Requested(t.rows[id], s.rows[id], u) && t.rows[id].version == s.rows[id].version + 1
            && !s.rows[id].retired && u.valid)
  {
    assert (steps + [Advance(i)])[..|steps|] == steps;
    SafeAlways(steps);
    var s := Run(steps);
    assert CallSound(s.rows, s.calls[i]);
    hide Run;
  }

  /** Every field that the request leaves alone is in `a` as it was in `read`. */
  predicate Untouched(a: Agent, read: Agent, u: Update) {
    && (u.role.None? ==> a.role == read.role)
    && (u.status.None? ==> a.status == read.status)
    && (u.metadata.None? ==> a.metadata == read.metadata)
  }

  lemma MergeIsEdit(a: Agent, read: Agent, u: Update)
    ensures Merge(a, Edit(read, u)) == Edit(a, u) <==> Untouched(a, read, u)
  {
    var m, e := Merge(a, Edit(read, u)), Edit(a, u);
    assert m == e <==> m.role == e.role && m.status == e.status && m.metadata == e.metadata;
  }

  /**
   * The last write of a call that rewrites capabilities, in any run: it commits if and only if the row
   * is still the one of its second read. What it then writes over the row is the request if and only
   * if the fields left out of the request are as they were at the first read, whoever wrote since;
   * and so they are as long as SetCapabilities was the only write since the first read.
   */
  lemma CapabilityCommitLosesNothingExactly(steps: seq<Step>, i: nat)
    requires var s := Run(steps); i < |s.calls| && s.calls[i].Merged?
    ensures var s, t := Run(steps), Run(steps + [Advance(i)]);
      var id, u, read, row := s.calls[i].id, s.calls[i].u, s.calls[i].read, s.calls[i].row;
      && id in s.rows && |t.calls| == |s.calls|
      && var a := s.rows[id];
      && t.calls[i] == Ended(id, u, if row.version == a.version then Committed else VersionConflict)
      && (row.version != a.version ==> t.rows == s.rows)
      && (row.version == a.version ==> t.rows.Keys == s.rows.Keys && forall k :: k in s.rows && k != id ==>
           t.rows[k] == s.rows[k])
      && (row.version == a.version ==>
            (t.rows[id] == Edit(a, u).(version := a.version + 1) <==> Untouched(a, read, u)))
      && (a.version == read.version + 1 ==> Untouched(a, read, u))
  {
    assert (steps + [Advance(i)])[..|steps|] == steps;
    SafeAlways(steps);
    var s := Run(steps);
    assert CallSound(s.rows, s.calls[i]);
    hide Run, Safe;
    MergeIsEdit(s.rows[s.calls[i].id], s.calls[i].read, s.calls[i].u);
  }

  // ------------------------------------------------------------------ what SetCapabilities overwrites

  /** The step is a call's SetCapabilities on the agent. */
  predicate Sets(s: System, step: Step, id: Uuid) {
    && step.Advance? && step.i < |s.calls| && s.calls[step.i].Ready? && s.calls[step.i].id == id
    && s.calls[step.i].u.capabilities.Some? && id in s.rows
  }

  /** The capabilities that another call set last since call i's latest step; None if none did. */
  function SetSince(steps: seq<Step>, i: nat, id: Uuid): Option<seq<string>> {
    if steps == [] then None
    else
      var front, step := steps[..|steps| - 1], steps[|steps| - 1];
      if step == Advance(i) && Enabled(Run(front), step) then None
      else if Sets(Run(front), step, id) then Run(front).calls[step.i].u.capabilities
      else SetSince(front, i, id)
  }

  /** No step but SetCapabilities changes an agent's capabilities. */
  lemma StepKeepsCapabilities(s: System, step: Step, id: Uuid)
    requires Safe(s) && Enabled(s, step) && id in s.rows
    ensures id in Do(s, step).rows
    ensures Do(s, step).rows[id].capabilities ==
      if Sets(s, step, id) then s.calls[step.i].u.capabilities.value else s.rows[id].capabilities
  {
    if step.Advance? {
      assert CallSound(s.rows, s.calls[step.i]);
    }
  }

  lemma OthersStay(s: System, step: Step, i: nat)
    requires Enabled(s, step) && step != Advance(i) && i < |Do(s, step).calls| && Do(s, step).calls[i].Ready?
    ensures i < |s.calls| && s.calls[i] == Do(s, step).calls[i]
  {
  }

  /** At a call's first write the agent has the capabilities set since the read, or else those read. */
  lemma {:induction false} CapabilitiesAtWrite(steps: seq<Step>, i: nat)
    ensures var s := Run(steps);
      i < |s.calls| && s.calls[i].Ready? ==>
        var id, read, w := s.calls[i].id, s.calls[i].read, SetSince(steps, i, s.calls[i].id);
        && id in s.rows && s.rows[id].capabilities == (if w.Some? then w.value else read.capabilities)
        && (w.Some? ==> read.version < s.rows[id].version)
  {
    var s := Run(steps);
    if steps != [] && i < |s.calls| && s.calls[i].Ready? {
      var front, step := steps[..|steps| - 1], steps[|steps| - 1];
      var before := Run(front);
      SafeAlways(front);
      hide Run, Safe;
      CapabilitiesAtWrite(front, i);
      if Enabled(before, step) && step != Advance(i) {
        OthersStay(before, step, i);
        StepKeepsCapabilities(before, step, s.calls[i].id);
        StepMovesOn(before, step, s.calls[i].id);
        ReadIsBehind(before, i);
        hide Do;
      }
    }
  }

  lemma ReadIsBehind(s: System, i: nat)
    requires Safe(s) && i < |s.calls| && s.calls[i].Ready?
    ensures Behind(s.rows, s.calls[i].id, s.calls[i].read)
  {
    assert CallSound(s.rows, s.calls[i]);
  }

  /**
   * SetCapabilities goes through in any run, whatever the version. It overwrites the capabilities that
   * another call set since its call's first read, if one did, and otherwise those its call had read;
   * in the first case the agent's version is past the one that its call carries.
   */
  lemma SetCapabilitiesOverwritesExactly(steps: seq<Step>, i: nat)
    requires var s := Run(steps); i < |s.calls| && s.calls[i].Ready? && s.calls[i].u.capabilities.Some?
    ensures var s, t := Run(steps), Run(steps + [Advance(i)]);
      var id, u, read := s.calls[i].id, s.calls[i].u, s.calls[i].read;
      var w := SetSince(steps, i, id);
      && id in s.rows && t.rows == s.rows[id := WithCapabilities(s.rows[id], u.capabilities.value)]
      && s.rows[id].capabilities == (if w.Some? then w.value else read.capabilities)
      && (w.Some? ==> u.version.Some? && u.version.value < s.rows[id].version)
  {
    assert (steps + [Advance(i)])[..|steps|] == steps;
    SafeAlways(steps);
    CapabilitiesAtWrite(steps, i);
    var s := Run(steps);
    assert CallSound(s.rows, s.calls[i]);
    hide Run, Safe, SetSince;
  }

  // ------------------------------------------------------------------ a lost update

  const ID: Uuid := 1
  const START := Agent("developer", "idle", "", ["go"], false, 1)
  const RENAME := Update(Some(1), Some("reviewer"), None, None, None, true)
  const REWRITE := Update(Some(1), None, None, None, Some(["qa"]), true)

  lemma Extend(steps: seq<Step>, s: System, step: Step) returns (more: seq<Step>, t: System)
    requires s == Run(steps)
    ensures more == steps + [step] && t == Try(s, step) && t == Run(more)
  {
    more := steps + [step];
    assert more[..|steps|] == steps;
    t := Try(s, step);
  }

  lemma RewriteOpens() returns (steps: seq<Step>, s: System)
    ensures steps == [Create(ID, START), Begin(ID, REWRITE), Begin(ID, RENAME), Advance(0), Advance(1)]
      && s == Run(steps)
    ensures s == System(map[ID := START], [Ready(ID, REWRITE, START), Ready(ID, RENAME, START)])
  {
    steps, s := Extend([], Run([]), Create(ID, START));
    hide Run;
    steps, s := Extend(steps, s, Begin(ID, REWRITE));
    steps, s := Extend(steps, s, Begin(ID, RENAME));
    assert s == System(map[ID := START], [Reading(ID, REWRITE), Reading(ID, RENAME)]);
    steps, s := Extend(steps, s, Advance(0));
    assert s == System(map[ID := START], [Ready(ID, REWRITE, START), Reading(ID, RENAME)]);
    steps, s := Extend(steps, s, Advance(1));
  }

  /** A capability call and a plain call with the same version can both commit, and the plain one's role is lost. */
  lemma CapabilityRewriteLosesARename()
    ensures var s := Run([Create(ID, START), Begin(ID, REWRITE), Begin(ID, RENAME), Advance(0), Advance(1),
      Advance(1), Advance(0), Advance(0), Advance(0)]);
      && s.calls == [Ended(ID, REWRITE, Committed), Ended(ID, RENAME, Committed)]
      && s.rows == map[ID := Agent("developer", "idle", "", ["qa"], false, 4)]
  {
    var steps, s := RewriteOpens();
    hide Run;
    steps, s := Extend(steps, s, Advance(1));
    var renamed := START.(role := "reviewer", version := 2);
    assert s == System(map[ID := renamed], [Ready(ID, REWRITE, START), Ended(ID, RENAME, Committed)]);
    steps, s := Extend(steps, s, Advance(0));
    var capable := renamed.(capabilities := ["qa"], version := 3);
    assert s == System(map[ID := capable], [Rereading(ID, REWRITE, START), Ended(ID, RENAME, Committed)]);
    steps, s := Extend(steps, s, Advance(0));
    assert s == System(map[ID := capable],
        [Merged(ID, REWRITE, START, capable.(role := "developer")), Ended(ID, RENAME, Committed)]);
    steps, s := Extend(steps, s, Advance(0));
    assert s.rows == map[ID := Agent("developer", "idle", "", ["qa"], false, 4)];
    assert steps == [Create(ID, START), Begin(ID, REWRITE), Begin(ID, RENAME), Advance(0), Advance(1), Advance(1),
        Advance(0), Advance(0), Advance(0)];
  }
}
