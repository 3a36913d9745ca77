/**
 * Append-only deliverables: the service's create and update paths (src/internal/service/deliverable.go)
 * over the in-memory store (src/internal/store/memory.go). WithTx takes no lock there, so the store
 * calls of different requests interleave; each store call is one atomic step.
 */
module Deliverables {
  import opened Specs

  datatype Deliverable = Deliverable(
    id: Uuid, taskId: Uuid, agentId: Uuid, title: string, content: string, version: int)

  datatype VersionRow = VersionRow(deliverableId: Uuid, version: int, title: string, content: string)

  /** The two tables. A version row's key is its deliverable and its number. */
  datatype Store = Store(rows: map<Uuid, Deliverable>, versions: map<(Uuid, int), VersionRow>)

  datatype Result = Ok(row: Deliverable) | Conflict | NotFound

  /** One request between two store calls. */
  datatype Writer =
    | Creating(d: Deliverable)                                // CreateDeliverable, main row not yet written
    | Created(d: Deliverable)                                 // main row written, first version row ahead
    | CreateDone(result: Result)
    | Putting(id: Uuid, title: string, content: string)       // UpdateDeliverable, current row not yet read
    | PutRead(current: Deliverable, title: string, content: string)
    | PutInserted(updated: Deliverable)                       // version row written, main row ahead
    | PutDone(id: Uuid, result: Result)

  function Snapshot(d: Deliverable): VersionRow {
    VersionRow(d.id, d.version, d.title, d.content)
  }

  /** The row an update writes: the one it read with new text and the next version. */
  function Revise(current: Deliverable, title: string, content: string): Deliverable {
    current.(title := title, content := content, version := current.version + 1)
  }

  // ------------------------------------------------------------------ the store object

  class MemoryStore {
    var rows: map<Uuid, Deliverable>
    var versions: map<(Uuid, int), VersionRow>

    ghost function Model(): Store
      reads this
    {
      Store(rows, versions)
    }

    ghost predicate Valid()
      reads this
    {
      forall id :: id in rows ==> rows[id].id == id
    }

    constructor ()
      ensures Valid() && Model() == Store(map[], map[])
    {
      rows, versions := map[], map[];
    }

    method Create(d: Deliverable) returns (ok: bool)
      requires Valid()
      modifies this
      ensures Valid()
      ensures ok <==> d.id !in old(rows)
      ensures Model() == if ok then old(Model()).(rows := old(rows)[d.id := d]) else old(Model())
    {
      if d.id in rows {
        return false;
      }
      rows := rows[d.id := d];
      return true;
    }

    method Insert(v: VersionRow) returns (ok: bool)
      modifies this
      ensures old(Valid()) ==> Valid()
      ensures ok <==> (v.deliverableId, v.version) !in old(versions)
      ensures Model() == if ok then old(Model()).(versions := old(versions)[(v.deliverableId, v.version) := v])
                         else old(Model())
    {
      if (v.deliverableId, v.version) in versions {
        return false;
      }
      versions := versions[(v.deliverableId, v.version) := v];
      return true;
    }

    method Update(d: Deliverable) returns (ok: bool)
      requires Valid()
      modifies this
      ensures Valid()
      ensures ok <==> d.id in old(rows)
      ensures Model() == if ok then old(Model()).(rows := old(rows)[d.id := d]) else old(Model())
    {
      if d.id !in rows {
        return false;
      }
      rows := rows[d.id := d];
      return true;
    }

    /** UpdateDeliverable when no other request comes in between. */
    method UpdateDeliverable(id: Uuid, title: string, content: string) returns (r: Result)
      requires Valid()
      modifies this
      ensures Valid()
      ensures var w := Finish(old(Model()), Putting(id, title, content));
        w.0 == Model() && w.1 == PutDone(id, r)
      ensures r.NotFound? <==> id !in old(rows)
      ensures r.Conflict? <==> id in old(rows) && (id, old(rows)[id].version + 1) in old(versions)
      ensures r.Ok? ==>
        var d, v := old(rows)[id], old(rows)[id].version + 1;
        && r.row == Deliverable(id, d.taskId, d.agentId, title, content, v)
        && rows == old(rows)[id := r.row]
        && versions == old(versions)[(id, v) := VersionRow(id, v, title, content)]
    {
      if id !in rows {
        return NotFound;
      }
      var current := rows[id];
      var nextVersion := current.version + 1;
      var updated := Deliverable(current.id, current.taskId, current.agentId, title, content, nextVersion);
      var inserted := Insert(VersionRow(current.id, nextVersion, title, content));
      if !inserted {
        return Conflict;
      }
      var found := Update(updated);
      return if found then Ok(updated) else NotFound;
    }
  }

  // ------------------------------------------------------------------ one request's next store call

  function Advance(s: Store, w: Writer): (Store, Writer) {
    match w
    case Creating(d) =>
      if d.id in s.rows then (s, CreateDone(Conflict)) else (s.(rows := s.rows[d.id := d]), Created(d))
    case Created(d) =>
      if (d.id, 1) in s.versions then (s, CreateDone(Conflict))
      else (s.(versions := s.versions[(d.id, 1) := Snapshot(d)]), CreateDone(Ok(d)))
    case Putting(id, title, content) =>
      if id in s.rows then (s, PutRead(s.rows[id], title, content)) else (s, PutDone(id, NotFound))
    case PutRead(current, title, content) =>
      var updated := Revise(current, title, content);
      var key := (updated.id, updated.version);
      if key in s.versions then (s, PutDone(current.id, Conflict))
      else (s.(versions := s.versions[key := Snapshot(updated)]), PutInserted(updated))
    case PutInserted(updated) =>
      if updated.id in s.rows then (s.(rows := s.rows[updated.id := updated]), PutDone(updated.id, Ok(updated)))
      else (s, PutDone(updated.id, NotFound))
    case CreateDone(_) => (s, w)
    case PutDone(_, _) => (s, w)
  }

  /** Three store calls in a row: enough for either request to be done. */
  function Finish(s: Store, w: Writer): (Store, Writer) {
    var (s1, w1) := Advance(s, w);
    var (s2, w2) := Advance(s1, w1);
    Advance(s2, w2)
  }

  // ------------------------------------------------------------------ all requests together

  datatype System = System(store: Store, writers: seq<Writer>)

  /** A new request arrives, or request i makes its next store call. */
  datatype Step = Arrive(w: Writer) | Call(i: nat)

  const INIT := System(Store(map[], map[]), [])

  predicate Enabled(s: System, step: Step) {
    match step
    case Arrive(w) => w.Putting? || (w.Creating? && w.d.version == 1)
    case Call(i) => i < |s.writers|
  }

  function Do(s: System, step: Step): System
    requires Enabled(s, step)
  {
    match step
    case Arrive(w) => s.(writers := s.writers + [w])
    case Call(i) =>
      var (store, w) := Advance(s.store, s.writers[i]);
      System(store, s.writers[i := w])
  }

  /** The state after trying `steps` in order; a step that is not enabled changes nothing. */
  function Run(s: System, steps: seq<Step>): System {
    if steps == [] then s
    else
      var before := Run(s, steps[..|steps| - 1]);
      var step := steps[|steps| - 1];
      if Enabled(before, step) then Do(before, step) else before
  }
}
