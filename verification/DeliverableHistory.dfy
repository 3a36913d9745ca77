/** The version history under every interleaving of module Deliverables. */
module DeliverableHistory {
  import opened Specs
  import opened Deliverables

  datatype Phase = Making | Window | Won

  /** The writer has a create's first version pending, is between Insert and Update, or has updated `id`. */
  predicate InPhase(p: Phase, w: Writer, id: Uuid) {
    match p
    case Making => w.Created? && w.d.id == id
    case Window => w.PutInserted? && w.updated.id == id
    case Won => w.PutDone? && w.id == id && w.result.Ok?
  }

  function One(p: Phase, w: Writer, id: Uuid): int {
    if InPhase(p, w, id) then 1 else 0
  }

  function Count(p: Phase, ws: seq<Writer>, id: Uuid): int {
    if ws == [] then 0 else One(p, ws[0], id) + Count(p, ws[1..], id)
  }

  lemma {:induction false} CountUpdate(p: Phase, ws: seq<Writer>, i: nat, w: Writer, id: Uuid)
    requires i < |ws|
    ensures Count(p, ws[i := w], id) == Count(p, ws, id) - One(p, ws[i], id) + One(p, w, id)
  {
    if i == 0 {
      assert ws[i := w][1..] == ws[1..];
    } else {
      assert ws[i := w][1..] == ws[1..][i - 1 := w];
      CountUpdate(p, ws[1..], i - 1, w, id);
    }
  }

  lemma {:induction false} CountAppend(p: Phase, ws: seq<Writer>, w: Writer, id: Uuid)
    ensures Count(p, ws + [w], id) == Count(p, ws, id) + One(p, w, id)
  {
    if ws != [] {
      assert (ws + [w])[1..] == ws[1..] + [w];
      CountAppend(p, ws[1..], w, id);
    }
  }

  lemma {:induction ws} CountNonNegative(p: Phase, ws: seq<Writer>, id: Uuid)
    ensures Count(p, ws, id) >= 0
  {
  }

  lemma {:induction false} CountAtLeast(p: Phase, ws: seq<Writer>, i: nat, id: Uuid)
    requires i < |ws|
    ensures Count(p, ws, id) >= One(p, ws[i], id)
  {
    CountNonNegative(p, ws[1..], id);
    if i != 0 {
      CountAtLeast(p, ws[1..], i - 1, id);
    }
  }

  /** Two different writers in one phase count twice. */
  lemma CountTwo(p: Phase, ws: seq<Writer>, i: nat, j: nat, id: Uuid)
    requires i < |ws| && j < |ws| && i != j && InPhase(p, ws[i], id) && InPhase(p, ws[j], id)
    ensures Count(p, ws, id) >= 2
  {
    var others := ws[i := CreateDone(Conflict)];
    CountUpdate(p, ws, i, CreateDone(Conflict), id);
    assert others[j] == ws[j];
    CountAtLeast(p, others, j, id);
  }

  // ------------------------------------------------------------------ the invariant

  /** What the tables hold for one deliverable. */
  ghost predicate Tables(s: System, id: Uuid) {
    var making, window := Count(Making, s.writers, id), Count(Window, s.writers, id);
    && 0 <= making <= 1 && 0 <= window <= 1
    && (id !in s.store.rows ==>
        making == window == Count(Won, s.writers, id) == 0 && forall v :: (id, v) !in s.store.versions)
    && (id in s.store.rows ==>
        var main := s.store.rows[id];
        && main.id == id && main.version == 1 + Count(Won, s.writers, id)
        && (forall v :: (id, v) in s.store.versions <==>
              1 <= v <= main.version + window && !(v == 1 && making == 1))
        && ((id, main.version) in s.store.versions ==> s.store.versions[(id, main.version)] == Snapshot(main)))
  }

  /** What one request knows about the tables. */
  ghost predicate Informed(s: Store, w: Writer) {
    match w
    case Creating(d) => d.version == 1
    case CreateDone(Ok(d)) =>
      && d.id in s.rows && Kin(d, s.rows[d.id]) && (s.rows[d.id].version == 1 ==> s.rows[d.id] == d)
      && (d.id, 1) in s.versions && s.versions[(d.id, 1)] == Snapshot(d)
    case Created(d) => d.version == 1 && d.id in s.rows && Kin(d, s.rows[d.id])
        && (s.rows[d.id].version == 1 ==> s.rows[d.id] == d)
    case PutRead(current, _, _) =>
      current.id in s.rows && 1 <= current.version <= s.rows[current.id].version
      && Kin(current, s.rows[current.id])
    case PutInserted(updated) =>
      && updated.id in s.rows && updated.version == s.rows[updated.id].version + 1
      && Kin(updated, s.rows[updated.id])
      && (updated.id, updated.version) in s.versions
      && s.versions[(updated.id, updated.version)] == Snapshot(updated)
    case PutDone(id, Ok(row)) =>
      && row.id == id && id in s.rows && 2 <= row.version <= s.rows[id].version && Kin(row, s.rows[id])
      && (id, row.version) in s.versions && s.versions[(id, row.version)] == Snapshot(row)
    case _ => true
  }

  predicate Kin(a: Deliverable, b: Deliverable) {
    a.id == b.id && a.taskId == b.taskId && a.agentId == b.agentId
  }

  ghost predicate Faithful(s: System) {
    && (forall id :: Tables(s, id))
    && (forall i :: 0 <= i < |s.writers| ==> Informed(s.store, s.writers[i]))
    && (forall i, j, id :: 0 <= i < j < |s.writers| && InPhase(Won, s.writers[i], id) && InPhase(Won, s.writers[j], id)
          ==> s.writers[i].result.row.version != s.writers[j].result.row.version)
  }

  lemma Counted(s: System, i: nat, w: Writer, id: Uuid)
    requires i < |s.writers|
    ensures forall p ::
      Count(p, s.writers[i := w], id) == Count(p, s.writers, id) - One(p, s.writers[i], id) + One(p, w, id)
    ensures forall p :: Count(p, s.writers, id) >= One(p, s.writers[i], id) >= 0
  {
    forall p
      ensures Count(p, s.writers[i := w], id) == Count(p, s.writers, id) - One(p, s.writers[i], id) + One(p, w, id)
      ensures Count(p, s.writers, id) >= One(p, s.writers[i], id)
    {
      CountUpdate(p, s.writers, i, w, id);
      CountAtLeast(p, s.writers, i, id);
    }
  }

  lemma CreateKeeps(s: System, i: nat)
    requires Faithful(s) && i < |s.writers| && s.writers[i].Creating?
    ensures Faithful(Do(s, Call(i)))
  {
    var t := Do(s, Call(i));
    forall id
      ensures Tables(t, id)
    {
      assert Tables(s, id) && Informed(s.store, s.writers[i]);
      Counted(s, i, t.writers[i], id);
    }
    forall j | 0 <= j < |t.writers|
      ensures Informed(t.store, t.writers[j])
    {
      assert Informed(s.store, s.writers[j]);
    }
  }

  lemma FirstVersionKeeps(s: System, i: nat)
    requires Faithful(s) && i < |s.writers| && s.writers[i].Created?
    ensures Faithful(Do(s, Call(i)))
  {
    var t := Do(s, Call(i));
    forall id
      ensures Tables(t, id)
    {
      assert Tables(s, id) && Informed(s.store, s.writers[i]);
      Counted(s, i, t.writers[i], id);
    }
    forall j | 0 <= j < |t.writers|
      ensures Informed(t.store, t.writers[j])
    {
      assert Informed(s.store, s.writers[j]);
    }
  }

  lemma ReadKeeps(s: System, i: nat)
    requires Faithful(s) && i < |s.writers| && s.writers[i].Putting?
    ensures Faithful(Do(s, Call(i)))
  {
    var t := Do(s, Call(i));
    forall id
      ensures Tables(t, id)
    {
      assert Tables(s, id);
      Counted(s, i, t.writers[i], id);
    }
    forall j | 0 <= j < |t.writers|
      ensures Informed(t.store, t.writers[j])
    {
      assert Informed(s.store, s.writers[j]);
      CountNonNegative(Won, s.writers, s.writers[i].id);
      assert Tables(s, s.writers[i].id);
    }
  }

  lemma InsertKeepsTables(s: System, i: nat)
    requires Faithful(s) && i < |s.writers| && s.writers[i].PutRead?
    ensures forall id :: Tables(Do(s, Call(i)), id)
  {
    var t := Do(s, Call(i));
    assert Informed(s.store, s.writers[i]);
    forall id
      ensures Tables(t, id)
    {
      assert Tables(s, id);
      Counted(s, i, t.writers[i], id);
    }
  }

  lemma InsertKeepsInformed(s: System, i: nat, j: nat)
    requires Faithful(s) && i < |s.writers| && s.writers[i].PutRead? && j < |s.writers|
    ensures Informed(Do(s, Call(i)).store, Do(s, Call(i)).writers[j])
  {
    assert Informed(s.store, s.writers[j]) && Informed(s.store, s.writers[i]);
    assert Tables(s, s.writers[i].current.id);
  }

  lemma InsertKeeps(s: System, i: nat)
    requires Faithful(s) && i < |s.writers| && s.writers[i].PutRead?
    ensures Faithful(Do(s, Call(i)))
  {
    var t := Do(s, Call(i));
    InsertKeepsTables(s, i);
    forall j | 0 <= j < |t.writers|
      ensures Informed(t.store, t.writers[j])
    {
      InsertKeepsInformed(s, i, j);
    }
    hide Tables, Informed;
  }

  lemma UpdateKeepsTables(s: System, i: nat)
    requires Faithful(s) && i < |s.writers| && s.writers[i].PutInserted?
    ensures forall id :: Tables(Do(s, Call(i)), id)
  {
    var t := Do(s, Call(i));
    assert Informed(s.store, s.writers[i]);
    forall id
      ensures Tables(t, id)
    {
      assert Tables(s, id);
      Counted(s, i, t.writers[i], id);
    }
  }

  lemma UpdateKeepsInformed(s: System, i: nat, j: nat)
    requires Faithful(s) && i < |s.writers| && s.writers[i].PutInserted? && j < |s.writers|
    ensures Informed(Do(s, Call(i)).store, Do(s, Call(i)).writers[j])
  {
    var main := s.writers[i].updated.id;
    assert Informed(s.store, s.writers[i]) && Informed(s.store, s.writers[j]);
    assert Tables(s, main);
    CountNonNegative(Won, s.writers, main);
    if j != i && InPhase(Window, s.writers[j], main) {
      CountTwo(Window, s.writers, i, j, main);
    }
  }

  lemma UpdateKeeps(s: System, i: nat)
    requires Faithful(s) && i < |s.writers| && s.writers[i].PutInserted?
    ensures Faithful(Do(s, Call(i)))
  {
    var t := Do(s, Call(i));
    UpdateKeepsTables(s, i);
    forall j | 0 <= j < |t.writers|
      ensures Informed(t.store, t.writers[j])
    {
      UpdateKeepsInformed(s, i, j);
    }
    forall j, k, id | 0 <= j < k < |t.writers| && InPhase(Won, t.writers[j], id) && InPhase(Won, t.writers[k], id)
      ensures t.writers[j].result.row.version != t.writers[k].result.row.version
    {
      assert Informed(s.store, s.writers[j]) && Informed(s.store, s.writers[k]) && Informed(s.store, s.writers[i]);
    }
  }

  lemma ArriveKeeps(s: System, w: Writer)
    requires Faithful(s) && Enabled(s, Arrive(w))
    ensures Faithful(Do(s, Arrive(w)))
  {
    var t := Do(s, Arrive(w));
    forall id
      ensures Tables(t, id)
    {
      assert Tables(s, id);
      CountAppend(Making, s.writers, w, id);
      CountAppend(Window, s.writers, w, id);
      CountAppend(Won, s.writers, w, id);
    }
    forall j | 0 <= j < |t.writers|
      ensures Informed(t.store, t.writers[j])
    {
      assert j < |s.writers| ==> Informed(s.store, s.writers[j]);
    }
  }

  lemma StepKeeps(s: System, step: Step)
    requires Faithful(s) && Enabled(s, step)
    ensures Faithful(Do(s, step))
  {
    match step
    case Arrive(w) => ArriveKeeps(s, w);
    case Call(i) =>
      match s.writers[i]
      case Creating(_) => CreateKeeps(s, i);
      case Created(_) => FirstVersionKeeps(s, i);
      case Putting(_, _, _) => ReadKeeps(s, i);
      case PutRead(_, _, _) => InsertKeeps(s, i);
      case PutInserted(_) => UpdateKeeps(s, i);
      case _ => assert Do(s, step) == s;
  }

  lemma {:induction false} FaithfulAlways(steps: seq<Step>)
    ensures Faithful(Run(INIT, steps))
  {
    if steps != [] {
      var before, step := Run(INIT, steps[..|steps| - 1]), steps[|steps| - 1];
      FaithfulAlways(steps[..|steps| - 1]);
      if Enabled(before, step) {
        hide Faithful;
        StepKeeps(before, step);
      }
    }
  }

  // ------------------------------------------------------------------ what holds in every run

  /**
   * The history of one deliverable in every reachable state: at most one request between Insert
   * and Update; versions 1 to the main row's, plus the next one in that window, minus 1 while the
   * creator's own insert is pending; the main row is its version; one version per successful PUT.
   */
  lemma HistoryIsExact(steps: seq<Step>, id: Uuid)
    requires id in Run(INIT, steps).store.rows
    ensures var s := Run(INIT, steps);
      var main, window, making := s.store.rows[id], Count(Window, s.writers, id), Count(Making, s.writers, id);
      && 0 <= window <= 1 && 0 <= making <= 1
      && main.version == 1 + Count(Won, s.writers, id)
      && (forall v :: (id, v) in s.store.versions <==> 1 <= v <= main.version + window && !(v == 1 && making == 1))
      && (main.version > 1 || making == 0 ==>
            (id, main.version) in s.store.versions && s.store.versions[(id, main.version)] == Snapshot(main))
  {
    FaithfulAlways(steps);
    var s := Run(INIT, steps);
    assert Tables(s, id);
    CountNonNegative(Won, s.writers, id);
  }

  /** Each successful PUT has a version of its own that still carries its text. */
  lemma NoPutIsLost(steps: seq<Step>, i: nat)
    requires var s := Run(INIT, steps); i < |s.writers| && s.writers[i].PutDone? && s.writers[i].result.Ok?
    ensures var s := Run(INIT, steps);
      var row := s.writers[i].result.row;
      && (row.id, row.version) in s.store.versions
      && s.store.versions[(row.id, row.version)] == Snapshot(row)
      && row.id in s.store.rows && row.version <= s.store.rows[row.id].version
      && forall j :: 0 <= j < |s.writers| && j != i && InPhase(Won, s.writers[j], row.id)
           ==> s.writers[j].result.row.version != row.version
  {
    FaithfulAlways(steps);
    var s := Run(INIT, steps);
    var row := s.writers[i].result.row;
    assert Informed(s.store, s.writers[i]) && InPhase(Won, s.writers[i], row.id);
  }

  // ------------------------------------------------------------------ whose text is stored

  /** The requests as they arrived, in order; writer i is what has become of the i-th. */
  function Arrivals(steps: seq<Step>): seq<Writer> {
    if steps == [] then []
    else
      var front, step := steps[..|steps| - 1], steps[|steps| - 1];
      Arrivals(front) + (if step.Arrive? && Enabled(Run(INIT, front), step) then [step.w] else [])
  }

  /** What a request on its way holds is what it brought. */
  predicate Brought(arrived: Writer, w: Writer) {
    match arrived
    case Creating(d) => w == Creating(d) || w == Created(d) || w == CreateDone(Ok(d)) || w == CreateDone(Conflict)
    case Putting(id, title, content) =>
      (match w
       case Putting(_, _, _) => w == arrived
       case PutRead(current, t, c) => current.id == id && t == title && c == content
       case PutInserted(row) => row.id == id && row.title == title && row.content == content
       case PutDone(i, Ok(row)) => i == id && row.id == id && row.title == title && row.content == content
       case PutDone(i, _) => i == id
       case _ => false)
    case _ => false
  }

  /** The version row under `key` has the text that `arrived` brought, and `w`, which it has become, has written it. */
  predicate Wrote(arrived: Writer, w: Writer, key: (Uuid, int), row: VersionRow) {
    match arrived
    case Creating(d) => w == CreateDone(Ok(d)) && key == (d.id, 1) && row == VersionRow(d.id, 1, d.title, d.content)
    case Putting(id, title, content) =>
      && key.0 == id && row == VersionRow(id, key.1, title, content)
      && ((w.PutInserted? && w.updated.version == key.1)
           || (w.PutDone? && w.result.Ok? && w.result.row.version == key.1))
    case _ => false
  }

  ghost predicate Attributed(s: System, arrived: seq<Writer>) {
    && |arrived| == |s.writers|
    && (forall i :: 0 <= i < |arrived| ==> Brought(arrived[i], s.writers[i]))
    && (forall key :: key in s.store.versions ==>
          exists i :: 0 <= i < |arrived| && Wrote(arrived[i], s.writers[i], key, s.store.versions[key]))
  }

  lemma AdvanceBrings(s: System, i: nat, arrived: Writer)
    requires Faithful(s) && i < |s.writers| && Brought(arrived, s.writers[i])
    ensures Brought(arrived, Do(s, Call(i)).writers[i])
  {
    assert Informed(s.store, s.writers[i]);
    if s.writers[i].Putting? {
      assert Tables(s, s.writers[i].id);
    }
  }

  /** Each version row that was there has its writer still, and a new one has the writer that made the call. */
  lemma AdvanceWrites(s: System, i: nat, arrived: Writer, key: (Uuid, int))
    requires Faithful(s) && i < |s.writers| && Brought(arrived, s.writers[i]) && key in Do(s, Call(i)).store.versions
    ensures var t := Do(s, Call(i));
      if key in s.store.versions
      then t.store.versions[key] == s.store.versions[key]
           && (Wrote(arrived, s.writers[i], key, s.store.versions[key]) ==>
                Wrote(arrived, t.writers[i], key, s.store.versions[key]))
      else Wrote(arrived, t.writers[i], key, t.store.versions[key])
  {
    assert Informed(s.store, s.writers[i]);
  }

  lemma CallAttributes(s: System, i: nat, arrived: seq<Writer>)
    requires Faithful(s) && Attributed(s, arrived) && i < |s.writers|
    ensures Attributed(Do(s, Call(i)), arrived)
  {
    var t := Do(s, Call(i));
    AdvanceBrings(s, i, arrived[i]);
    hide Faithful, Brought, Wrote, Advance;
    forall key | key in t.store.versions
      ensures exists j :: 0 <= j < |arrived| && Wrote(arrived[j], t.writers[j], key, t.store.versions[key])
    {
      AdvanceWrites(s, i, arrived[i], key);
      if key in s.store.versions {
        var j :| 0 <= j < |arrived| && Wrote(arrived[j], s.writers[j], key, s.store.versions[key]);
        assert Wrote(arrived[j], t.writers[j], key, t.store.versions[key]);
      } else {
        assert Wrote(arrived[i], t.writers[i], key, t.store.versions[key]);
      }
    }
  }

  lemma ArriveAttributes(s: System, w: Writer, arrived: seq<Writer>)
    requires Attributed(s, arrived) && Enabled(s, Arrive(w))
    ensures Attributed(Do(s, Arrive(w)), arrived + [w])
  {
    var t, all := Do(s, Arrive(w)), arrived + [w];
    forall key | key in t.store.versions
      ensures exists j :: 0 <= j < |all| && Wrote(all[j], t.writers[j], key, t.store.versions[key])
    {
      var j :| 0 <= j < |arrived| && Wrote(arrived[j], s.writers[j], key, s.store.versions[key]);
      assert Wrote(all[j], t.writers[j], key, t.store.versions[key]);
    }
  }

  lemma {:induction false} AttributedAlways(steps: seq<Step>)
    ensures Attributed(Run(INIT, steps), Arrivals(steps))
  {
    if steps != [] {
      var front, step := steps[..|steps| - 1], steps[|steps| - 1];
      AttributedAlways(front);
      FaithfulAlways(front);
      hide Faithful, Attributed;
      var before := Run(INIT, front);
      if Enabled(before, step) {
        match step
        case Arrive(w) => ArriveAttributes(before, w, Arrivals(front));
        case Call(i) => CallAttributes(before, i, Arrivals(front));
      }
    }
  }

  /** A PUT that succeeded has stored, as a version of its own, the title and content that its request brought. */
  lemma PutStoresItsText(steps: seq<Step>, i: nat, id: Uuid, title: string, content: string)
    requires i < |Arrivals(steps)| && Arrivals(steps)[i] == Putting(id, title, content)
    requires var s := Run(INIT, steps); i < |s.writers| && s.writers[i].PutDone? && s.writers[i].result.Ok?
    ensures var s := Run(INIT, steps);
      var row := s.writers[i].result.row;
      && row.id == id && row.title == title && row.content == content
      && (id, row.version) in s.store.versions
      && s.store.versions[(id, row.version)] == VersionRow(id, row.version, title, content)
      && id in s.store.rows && Kin(row, s.store.rows[id])
      && (s.store.rows[id].version == row.version ==> s.store.rows[id] == row)
  {
    var s := Run(INIT, steps);
    AttributedAlways(steps);
    FaithfulAlways(steps);
    assert Brought(Arrivals(steps)[i], s.writers[i]) && Informed(s.store, s.writers[i]) && Tables(s, id);
    hide Run, Arrivals, Attributed, Faithful;
  }

  /** A create that succeeded has stored its deliverable's title and content as version 1. */
  lemma CreateStoresItsText(steps: seq<Step>, i: nat, d: Deliverable)
    requires i < |Arrivals(steps)| && Arrivals(steps)[i] == Creating(d)
    requires var s := Run(INIT, steps); i < |s.writers| && s.writers[i].CreateDone? && s.writers[i].result.Ok?
    ensures var s := Run(INIT, steps);
      && s.writers[i].result.row == d
      && (d.id, 1) in s.store.versions && s.store.versions[(d.id, 1)] == VersionRow(d.id, 1, d.title, d.content)
      && d.id in s.store.rows && Kin(d, s.store.rows[d.id])
      && (s.store.rows[d.id].version == 1 ==> s.store.rows[d.id] == d)
  {
    var s := Run(INIT, steps);
    AttributedAlways(steps);
    FaithfulAlways(steps);
    assert Brought(Arrivals(steps)[i], s.writers[i]) && Informed(s.store, s.writers[i]) && Tables(s, d.id);
    hide Run, Arrivals, Attributed, Faithful;
  }

  /** And every version row was written by a request, with that request's text. */
  lemma EveryVersionWasBrought(steps: seq<Step>, key: (Uuid, int))
    requires key in Run(INIT, steps).store.versions
    ensures var s, arrived := Run(INIT, steps), Arrivals(steps);
      && |arrived| == |s.writers|
      && exists i :: 0 <= i < |arrived| && Wrote(arrived[i], s.writers[i], key, s.store.versions[key])
  {
    AttributedAlways(steps);
  }

  /**
   * A PUT's Insert succeeds exactly when the row it read is still current and no other request is
   * between Insert and Update of that deliverable; its Update then cannot fail.
   */
  lemma InsertSucceedsExactly(steps: seq<Step>, i: nat)
    requires var s := Run(INIT, steps); i < |s.writers| && s.writers[i].PutRead?
    ensures var s := Run(INIT, steps);
      var current := s.writers[i].current;
      && current.id in s.store.rows
      && (Advance(s.store, s.writers[i]).1.PutInserted? <==>
            current.version == s.store.rows[current.id].version && Count(Window, s.writers, current.id) == 0)
  {
    FaithfulAlways(steps);
    var s := Run(INIT, steps);
    assert Informed(s.store, s.writers[i]) && Tables(s, s.writers[i].current.id);
  }

  lemma UpdateAndFirstVersionSucceed(steps: seq<Step>, i: nat)
    requires var s := Run(INIT, steps); i < |s.writers| && (s.writers[i].PutInserted? || s.writers[i].Created?)
    ensures var s := Run(INIT, steps);
      match s.writers[i]
      case PutInserted(updated) => Advance(s.store, s.writers[i]).1 == PutDone(updated.id, Ok(updated))
      case Created(d) => Advance(s.store, s.writers[i]).1 == CreateDone(Ok(d))
  {
    FaithfulAlways(steps);
    var s := Run(INIT, steps);
    assert Informed(s.store, s.writers[i]);
    if s.writers[i].Created? {
      var id := s.writers[i].d.id;
      assert Tables(s, id) && InPhase(Making, s.writers[i], id);
      CountAtLeast(Making, s.writers, i, id);
    }
  }

  // ------------------------------------------------------------------ the past does not change

  /** `later` keeps every version row of `earlier`, every main row's kin, and never lowers a version. */
  ghost predicate Appends(earlier: Store, later: Store) {
    && (forall key :: key in earlier.versions ==> key in later.versions && later.versions[key] == earlier.versions[key])
    && (forall id :: id in earlier.rows ==>
          id in later.rows && Kin(earlier.rows[id], later.rows[id])
              && earlier.rows[id].version <= later.rows[id].version)
  }

  lemma StepAppends(s: System, step: Step)
    requires Faithful(s) && Enabled(s, step)
    ensures Appends(s.store, Do(s, step).store)
  {
    match step
    case Arrive(_) =>
    case Call(i) => assert Informed(s.store, s.writers[i]);
  }

  /** However a run goes on, it only adds versions. */
  lemma {:induction false} RunAppends(steps: seq<Step>, k: nat)
    requires k <= |steps|
    ensures Appends(Run(INIT, steps[..k]).store, Run(INIT, steps).store)
  {
    if k == |steps| {
      assert steps[..k] == steps;
    } else {
      var shorter := steps[..|steps| - 1];
      assert shorter[..k] == steps[..k];
      RunAppends(shorter, k);
      FaithfulAlways(shorter);
      var before, step := Run(INIT, shorter), steps[|steps| - 1];
      if Enabled(before, step) {
        StepAppends(before, step);
      }
    }
  }

  /** The two writes of one request are not atomic: others can see the version without its main row. */
  lemma TransactionIsVisible(d: Deliverable, title: string, content: string) returns (steps: seq<Step>)
    requires d.version == 1
    ensures var s := Run(INIT, steps);
      d.id in s.store.rows && s.store.rows[d.id] == d && (d.id, 2) in s.store.versions
  {
    var s1, s2, s3 := [Arrive(Creating(d)), Call(0), Call(0)], Arrive(Putting(d.id, title, content)), Call(1);
    steps := s1 + [s2, s3, s3];
    var a := RunThree(INIT, s1[0], s1[1], s1[2]);
    var b := RunThree(Run(INIT, s1), s2, s3, s3);
    RunConcat(INIT, s1, [s2, s3, s3]);
  }

  lemma RunThree(s: System, a: Step, b: Step, c: Step) returns (t: System)
    requires Enabled(s, a) && Enabled(Do(s, a), b) && Enabled(Do(Do(s, a), b), c)
    ensures t == Do(Do(Do(s, a), b), c) && t == Run(s, [a, b, c])
  {
    t := Do(Do(Do(s, a), b), c);
    assert [a, b, c][..2] == [a, b] && [a, b][..1] == [a] && [a][..0] == [];
    assert Run(s, []) == s && Run(s, [a]) == Do(s, a) && Run(s, [a, b]) == Do(Do(s, a), b);
  }

  lemma {:induction false} RunConcat(s: System, xs: seq<Step>, ys: seq<Step>)
    ensures Run(s, xs + ys) == Run(Run(s, xs), ys)
  {
    if ys == [] {
      assert xs + ys == xs;
    } else {
      var front := ys[..|ys| - 1];
      assert (xs + ys)[..|xs + ys| - 1] == xs + front;
      RunConcat(s, xs, front);
    }
  }
}
