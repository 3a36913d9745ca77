/**
 * The in-process event bus (src/internal/events/bus.go): a ring buffer per project, and replay
 * from it. The rings are specified by the log of everything that was published.
 */
module EventBus {
  import opened Specs

  const BUFFER_SIZE := 200
  const ZERO_TIME := 0

  /** `payload` stands for the fields the bus passes on unread. */
  datatype Event = Event(id: nat, project: Uuid, at: int, payload: nat)

  // ------------------------------------------------------------------ the log

  /** What was published, and the id the next event without one gets. */
  datatype Journal = Journal(log: seq<Event>, next: nat)

  function Issue(j: Journal, e: Event, now: int): Journal {
    var id := if e.id == 0 then j.next else e.id;
    var at := if e.at == ZERO_TIME then now else e.at;
    Journal(j.log + [e.(id := id, at := at)], if e.id == 0 then j.next + 1 else j.next)
  }

  function Of(log: seq<Event>, p: Uuid): (r: seq<Event>)
    ensures |r| <= |log| && forall e :: e in r ==> e in log && e.project == p
  {
    if log == [] then []
    else
      var e := log[|log| - 1];
      Of(log[..|log| - 1], p) + (if e.project == p then [e] else [])
  }

  lemma OfAppend(log: seq<Event>, e: Event, p: Uuid)
    ensures Of(log + [e], p) == Of(log, p) + (if e.project == p then [e] else [])
  {
    assert (log + [e])[..|log|] == log;
  }

  lemma OfAppendAll(log: seq<Event>, e: Event)
    ensures forall p :: Of(log + [e], p) == Of(log, p) + (if e.project == p then [e] else [])
  {
    forall p
      ensures Of(log + [e], p) == Of(log, p) + (if e.project == p then [e] else [])
    {
      OfAppend(log, e, p);
    }
  }

  function LastOf(s: seq<Event>, n: nat): (r: seq<Event>)
    ensures |r| == if n <= |s| then n else |s|
  {
    if n <= |s| then s[|s| - n..] else s
  }

  // ------------------------------------------------------------------ the ring

  /** The events a ring holds, oldest first. */
  function Unrolled(b: seq<Event>, head: nat, full: bool): seq<Event>
    requires head <= |b|
  {
    if full then b[head..] + b[..head] else b[..head]
  }

  /** Where the (i+1)-th most recent event is. */
  function Slot(head: nat, size: nat, i: nat): (k: nat)
    requires head < size && i < size
    ensures k < size
  {
    if i < head then head - 1 - i else head - 1 - i + size
  }

  lemma SlotsAreLast(b: seq<Event>, head: nat, full: bool, out: seq<Event>)
    requires head < |b| && |out| <= |Unrolled(b, head, full)|
    requires forall k :: 0 <= k < |out| ==> out[k] == b[Slot(head, |b|, |out| - 1 - k)]
    ensures out == LastOf(Unrolled(b, head, full), |out|)
  {
    var w := Unrolled(b, head, full);
    forall k | 0 <= k < |out|
      ensures out[k] == w[|w| - |out| + k]
    {
      UnrolledAt(b, head, full, |out| - 1 - k);
    }
  }

  lemma UnrolledAt(b: seq<Event>, head: nat, full: bool, i: nat)
    requires head < |b| && i < |Unrolled(b, head, full)|
    ensures var w := Unrolled(b, head, full); w[|w| - 1 - i] == b[Slot(head, |b|, i)]
  {
  }

  function Next(head: nat, size: nat): (n: nat)
    requires head < size
    ensures n == if head + 1 == size then 0 else head + 1
  {
    (head + 1) % size
  }

  lemma UnrolledPush(b: seq<Event>, head: nat, full: bool, e: Event)
    requires head < |b|
    ensures var w, next := Unrolled(b, head, full), Next(head, |b|);
      Unrolled(b[head := e], next, full || next == 0) == (if full then w[1..] else w) + [e]
  {
    hide Next;
    var b' := b[head := e];
    assert b'[..head + 1] == b[..head] + [e];
    if head + 1 == |b| {
      assert b' == b'[..head + 1];
      assert b'[0..] == b' && b'[..0] == [];
      assert full ==> (b[head..] + b[..head])[1..] == b[..head];
    } else {
      assert b'[head + 1..] == b[head + 1..];
      assert (b[head..] + b[..head])[1..] == b[head + 1..] + b[..head];
    }
  }

  lemma LastOfPush(log: seq<Event>, size: nat, e: Event)
    requires size > 0
    ensures LastOf(log + [e], size) == (if |log| >= size then LastOf(log, size)[1..] else log) + [e]
  {
  }

  lemma LastOfLast(s: seq<Event>, n: nat, m: nat)
    requires m <= n
    ensures LastOf(LastOf(s, n), m) == LastOf(s, m)
  {
  }

  class RingBuffer {
    const buf: array<Event>
    var head: nat
    var full: bool
    ghost var log: seq<Event>

    ghost predicate Valid()
      reads this, buf
    {
      && head < buf.Length
      && (if full then |log| >= buf.Length else |log| == head)
      && Unrolled(buf[..], head, full) == LastOf(log, buf.Length)
    }

    constructor (size: nat)
      requires size > 0
      ensures Valid() && fresh(buf) && buf.Length == size && log == []
    {
      buf := new Event[size](_ => Event(0, NIL, ZERO_TIME, 0));
      head := 0;
      full := false;
      log := [];
    }

    method Push(e: Event)
      requires Valid()
      modifies this`head, this`full, this`log, buf
      ensures Valid() && log == old(log) + [e]
    {
      ghost var b := buf[..];
      UnrolledPush(b, head, full, e);
      LastOfPush(log, buf.Length, e);
      buf[head] := e;
      assert buf[..] == b[head := e];
      head := Next(head, buf.Length);
      if head == 0 {
        full := true;
      }
      log := log + [e];
      hide Unrolled, LastOf;
    }

    /** The loop walks back from the slot before the head and wraps below zero. */
    method Last(n: nat, bufferSize: nat) returns (out: seq<Event>)
      requires Valid() && bufferSize == buf.Length
      ensures out == LastOf(log, if n <= bufferSize then n else bufferSize)
    {
      var available := if full then bufferSize else head;
      var m := if n > available then available else n;
      if m == 0 {
        return [];
      }
      ghost var w := Unrolled(buf[..], head, full);
      out := CopyLast(m);
      LastOfLast(log, buf.Length, m);
      hide Unrolled;
    }

    method CopyLast(m: nat) returns (out: seq<Event>)
      requires Valid() && m <= |Unrolled(buf[..], head, full)|
      ensures out == LastOf(Unrolled(buf[..], head, full), m)
    {
      var a := new Event[m](_ => Event(0, NIL, ZERO_TIME, 0));
      var size := buf.Length;
      ghost var b := buf[..];
      for i := 0 to m
        invariant buf[..] == b
        invariant forall k :: m - i <= k < m ==> a[k] == b[Slot(head, size, m - 1 - k)]
      {
        var idx := head as int - 1 - i;
        if idx < 0 {
          idx := idx + size;
        }
        a[m - 1 - i] := buf[idx];
      }
      out := a[..];
      SlotsAreLast(b, head, full, out);
    }
  }

  // ------------------------------------------------------------------ the bus

  class MemoryBus {
    const bufferSize: nat
    var perProject: map<Uuid, RingBuffer>
    var nextEventId: nat
    ghost var log: seq<Event>
    ghost var Repr: set<object>

    ghost predicate Valid()
      reads `perProject, `log, `Repr, Repr
    {
      && bufferSize > 0 && this !in Repr
      && (forall p :: p in perProject ==>
            && perProject[p] in Repr && perProject[p].buf in Repr && perProject[p].buf.Length == bufferSize
            && perProject[p].Valid() && perProject[p].log == Of(log, p))
      && (forall p, q :: p in perProject && q in perProject && p != q ==>
            perProject[p] != perProject[q] && perProject[p].buf != perProject[q].buf)
      && (forall p :: p !in perProject ==> Of(log, p) == [])
    }

    ghost function Model(): Journal
      reads this
    {
      Journal(log, nextEventId)
    }

    constructor ()
      ensures Valid() && fresh(Repr) && bufferSize == BUFFER_SIZE && Model() == Journal([], 1)
    {
      bufferSize := BUFFER_SIZE;
      perProject := map[];
      nextEventId := 1;
      log := [];
      Repr := {};
    }

    /** Publish up to the unlock; `now` is the clock. */
    method Publish(e: Event, now: int)
      requires Valid()
      modifies this, Repr
      ensures Valid() && fresh(Repr - old(Repr))
      ensures Model() == Issue(old(Model()), e, now)
      ensures log == old(log) + [Event(if e.id == 0 then old(nextEventId) else e.id, e.project,
                                       if e.at == ZERO_TIME then now else e.at, e.payload)]
    {
      hide Of, RingBuffer.Valid;
      var event := e;
      if event.id == 0 {
        event := event.(id := nextEventId);
        nextEventId := nextEventId + 1;
      }
      if event.at == ZERO_TIME {
        event := event.(at := now);
      }
      var rb := RingOf(event.project);
      PushTo(rb, event);
    }

    /** The project's ring, made at its first event. */
    method RingOf(p: Uuid) returns (rb: RingBuffer)
      requires Valid()
      modifies this`perProject, this`Repr
      ensures Valid() && fresh(Repr - old(Repr)) && p in perProject && perProject[p] == rb
    {
      hide Unrolled, LastOf, Of, RingBuffer.Valid;
      if p in perProject {
        rb := perProject[p];
      } else {
        rb := new RingBuffer(bufferSize);
        perProject := perProject[p := rb];
        Repr := Repr + {rb, rb.buf};
      }
    }

    /** The push and its entry in the log. */
    method PushTo(rb: RingBuffer, event: Event)
      requires Valid() && event.project in perProject && perProject[event.project] == rb
      modifies this`log, rb, rb.buf
      ensures Valid() && log == old(log) + [event]
    {
      OfAppendAll(log, event);
      hide Of, RingBuffer.Valid;
      rb.Push(event);
      log := log + [event];
      forall q | q in perProject
        ensures perProject[q].Valid() && perProject[q].log == Of(log, q)
      {
        if q != event.project {
          assert perProject[q] != rb && perProject[q].buf != rb.buf;
        }
      }
    }

    /** The newest min(n, bufferSize) events of the project's log, oldest first. */
    method Last(p: Uuid, n: int) returns (out: seq<Event>)
      requires Valid()
      ensures out == LastOf(Of(log, p), if n <= 0 then 0 else if n <= bufferSize then n else bufferSize)
    {
      if n <= 0 || p !in perProject {
        return [];
      }
      out := perProject[p].Last(n, bufferSize);
    }
  }

  // ------------------------------------------------------------------ what is in the log

  /** The drafts that leave their id to the bus. */
  function Unnumbered(drafts: seq<(Event, int)>): nat {
    if drafts == [] then 0 else Unnumbered(drafts[..|drafts| - 1]) + if drafts[|drafts| - 1].0.id == 0 then 1 else 0
  }

  /**
   * After any sequence of publishes the log has their events in order, each with its own project and
   * payload, its own id and time if it had them, and else the next number, counted from 1, and the clock's time.
   */
  lemma {:induction false} EventsAreAsPublished(drafts: seq<(Event, int)>, k: nat)
    requires k < |drafts|
    ensures var log := IssueAll(Journal([], 1), drafts).log;
      && |log| == |drafts|
      && log[k].project == drafts[k].0.project && log[k].payload == drafts[k].0.payload
      && log[k].id == (if drafts[k].0.id != 0 then drafts[k].0.id else 1 + Unnumbered(drafts[..k]))
      && log[k].at == (if drafts[k].0.at != ZERO_TIME then drafts[k].0.at else drafts[k].1)
  {
    var front, n := drafts[..|drafts| - 1], |drafts| - 1;
    NextIsCounted(front);
    if k < n {
      assert front[..k] == drafts[..k];
      EventsAreAsPublished(front, k);
    }
  }

  lemma {:induction false} NextIsCounted(drafts: seq<(Event, int)>)
    ensures var j := IssueAll(Journal([], 1), drafts); j.next == 1 + Unnumbered(drafts) && |j.log| == |drafts|
  {
    if drafts != [] {
      NextIsCounted(drafts[..|drafts| - 1]);
    }
  }

  // ------------------------------------------------------------------ replay after a reconnect

  ghost predicate Increasing(s: seq<Event>) {
    forall i, j :: 0 <= i < j < |s| ==> s[i].id < s[j].id
  }

  /** What the consumer keeps: the events newer than the last id it saw. */
  function Newer(s: seq<Event>, seen: nat): (r: seq<Event>)
    ensures |r| <= |s|
  {
    if s == [] then []
    else (if s[0].id > seen then [s[0]] else []) + Newer(s[1..], seen)
  }

  function IssueAll(j: Journal, drafts: seq<(Event, int)>): Journal {
    if drafts == [] then j
    else
      var d := drafts[|drafts| - 1];
      Issue(IssueAll(j, drafts[..|drafts| - 1]), d.0, d.1)
  }

  /** Ids that the bus gives out increase along the log. */
  lemma {:induction false} AssignedIdsIncrease(drafts: seq<(Event, int)>)
    requires forall d :: d in drafts ==> d.0.id == 0
    ensures var j := IssueAll(Journal([], 1), drafts);
      |j.log| == |drafts| && j.next == |drafts| + 1 && forall i :: 0 <= i < |j.log| ==> j.log[i].id == i + 1
  {
    if drafts != [] {
      assert forall d :: d in drafts[..|drafts| - 1] ==> d in drafts;
      AssignedIdsIncrease(drafts[..|drafts| - 1]);
      assert drafts[|drafts| - 1] in drafts;
    }
  }

  lemma {:induction false} OfIncreases(log: seq<Event>, p: Uuid)
    requires Increasing(log)
    ensures Increasing(Of(log, p))
  {
    if log != [] {
      var front := log[..|log| - 1];
      OfIncreases(front, p);
      forall e | e in Of(front, p)
        ensures e.id < log[|log| - 1].id
      {
        assert e in front;
      }
    }
  }

  /** In an increasing log the events newer than the j-th are those published after it. */
  lemma {:induction false} NewerIsSuffix(s: seq<Event>, seen: nat, j: nat)
    requires Increasing(s) && j <= |s|
    requires (forall i :: 0 <= i < j ==> s[i].id <= seen) && (forall i :: j <= i < |s| ==> s[i].id > seen)
    ensures Newer(s, seen) == s[j..]
  {
    if s != [] {
      NewerIsSuffix(s[1..], seen, if j == 0 then 0 else j - 1);
    }
  }

  lemma {:induction false} SomeSplit(s: seq<Event>, seen: nat) returns (j: nat)
    requires Increasing(s)
    ensures j <= |s|
    ensures (forall i :: 0 <= i < j ==> s[i].id <= seen) && (forall i :: j <= i < |s| ==> s[i].id > seen)
  {
    if s == [] || s[0].id > seen {
      j := 0;
    } else {
      var k := SomeSplit(s[1..], seen);
      j := k + 1;
      assert forall i :: 0 < i < |s| ==> s[i] == s[1..][i - 1];
    }
  }

  /** Replay from a window of k events returns all that was missed exactly when at most k were missed. */
  lemma ReplayFromWindow(s: seq<Event>, seen: nat, k: nat)
    requires Increasing(s)
    ensures Newer(LastOf(s, k), seen) == Newer(s, seen) <==> |Newer(s, seen)| <= k
  {
    var j := SomeSplit(s, seen);
    NewerIsSuffix(s, seen, j);
    var w := LastOf(s, k);
    if k <= |s| {
      var cut := |s| - k;
      NewerIsSuffix(w, seen, if j >= cut then j - cut else 0);
      assert j >= cut ==> w[j - cut..] == s[j..];
    }
  }

  /**
   * A consumer of project p that reconnects after the event `seen`, asks for n events and drops
   * those up to `seen`, gets every newer event if and only if it missed at most min(n, 200).
   * All that is asked of the log is that the project's ids increase, whoever gave them.
   */
  lemma ReplayIsExact(log: seq<Event>, p: Uuid, seen: nat, n: nat)
    requires Increasing(Of(log, p))
    ensures var mine, k := Of(log, p), if n <= BUFFER_SIZE then n else BUFFER_SIZE;
      Newer(LastOf(mine, k), seen) == Newer(mine, seen) <==> |Newer(mine, seen)| <= k
  {
    hide Of, LastOf, Newer;
    ReplayFromWindow(Of(log, p), seen, if n <= BUFFER_SIZE then n else BUFFER_SIZE);
  }

  /** Whichever event a consumer saw last, the newer ones are those published after it. */
  ghost predicate Resumable(s: seq<Event>) {
    forall j :: 0 <= j < |s| ==> Newer(s, s[j].id) == s[j + 1..]
  }

  lemma {:induction false} NewerHas(s: seq<Event>, seen: nat, k: nat)
    requires k < |s|
    ensures s[k] in Newer(s, seen) ==> s[k].id > seen
    ensures forall e :: e in Newer(s, seen) ==> e.id > seen
  {
    if k > 0 {
      NewerHas(s[1..], seen, k - 1);
    } else if |s| > 1 {
      NewerHas(s[1..], seen, 0);
    }
  }

  /** Ids tell a consumer where it stopped if and only if they increase. */
  lemma ResumableExactly(s: seq<Event>)
    ensures Resumable(s) <==> Increasing(s)
  {
    if Increasing(s) {
      forall j | 0 <= j < |s|
        ensures Newer(s, s[j].id) == s[j + 1..]
      {
        NewerIsSuffix(s, s[j].id, j + 1);
      }
    }
    if Resumable(s) {
      forall i, j | 0 <= i < j < |s|
        ensures s[i].id < s[j].id
      {
        NewerHas(s, s[i].id, j);
        assert s[i + 1..][j - i - 1] == s[j];
        assert s[j] in Newer(s, s[i].id);
      }
    }
  }

  /** The id that publishing `e` gives or keeps is above every one the project has. */
  predicate Ahead(j: Journal, e: Event) {
    var mine := Of(j.log, e.project);
    mine == [] || mine[|mine| - 1].id < (if e.id == 0 then j.next else e.id)
  }

  lemma IncreasingAppend(s: seq<Event>, e: Event)
    ensures Increasing(s + [e]) <==> Increasing(s) && (s == [] || s[|s| - 1].id < e.id)
  {
    var more := s + [e];
    assert forall i :: 0 <= i < |s| ==> more[i] == s[i];
    if Increasing(more) && s != [] {
      assert more[|s| - 1].id < more[|s|].id;
    }
  }

  lemma PublishIncreases(j: Journal, e: Event, now: int, p: Uuid)
    ensures Increasing(Of(Issue(j, e, now).log, p)) <==> Increasing(Of(j.log, p)) && (e.project == p ==> Ahead(j, e))
  {
    var stored := Issue(j, e, now).log[|j.log|];
    OfAppend(j.log, stored, p);
    IncreasingAppend(Of(j.log, p), stored);
    hide Increasing, Of;
    assert Of(j.log, p) + [] == Of(j.log, p);
  }

  /** One Publish keeps a project's log resumable exactly when the event's id is ahead. */
  lemma PublishKeepsResumable(j: Journal, e: Event, now: int)
    requires Resumable(Of(j.log, e.project))
    ensures Resumable(Of(Issue(j, e, now).log, e.project)) <==> Ahead(j, e)
  {
    hide Resumable, Increasing, Of, Ahead;
    ResumableExactly(Of(j.log, e.project));
    ResumableExactly(Of(Issue(j, e, now).log, e.project));
    PublishIncreases(j, e, now, e.project);
  }

  ghost predicate AllAhead(drafts: seq<(Event, int)>, p: Uuid) {
    forall k :: 0 <= k < |drafts| && drafts[k].0.project == p ==>
        Ahead(IssueAll(Journal([], 1), drafts[..k]), drafts[k].0)
  }

  /**
   * After any sequence of publishes, some with ids of their own, consumers of project p can resume
   * from any event if and only if each of the project's events was ahead when it was published.
   */
  lemma {:induction false} RunIsResumableExactly(drafts: seq<(Event, int)>, p: Uuid)
    ensures Resumable(Of(IssueAll(Journal([], 1), drafts).log, p)) <==> AllAhead(drafts, p)
  {
    if drafts != [] {
      var front, d := drafts[..|drafts| - 1], drafts[|drafts| - 1];
      RunIsResumableExactly(front, p);
      RunPublishes(drafts);
      hide Resumable, Increasing, Of, Ahead, AllAhead, IssueAll, Issue;
      var j := IssueAll(Journal([], 1), front);
      ResumableExactly(Of(j.log, p));
      ResumableExactly(Of(Issue(j, d.0, d.1).log, p));
      PublishIncreases(j, d.0, d.1, p);
      AllAheadAppend(drafts, p);
    }
  }

  lemma RunPublishes(drafts: seq<(Event, int)>)
    requires drafts != []
    ensures var d := drafts[|drafts| - 1];
      IssueAll(Journal([], 1), drafts) == Issue(IssueAll(Journal([], 1), drafts[..|drafts| - 1]), d.0, d.1)
  {
  }

  lemma AllAheadAppend(drafts: seq<(Event, int)>, p: Uuid)
    requires drafts != []
    ensures var front, d := drafts[..|drafts| - 1], drafts[|drafts| - 1];
      AllAhead(drafts, p) <==> AllAhead(front, p) && (d.0.project == p ==> Ahead(IssueAll(Journal([], 1), front), d.0))
  {
    var front := drafts[..|drafts| - 1];
    assert forall k :: 0 <= k < |front| ==> front[..k] == drafts[..k];
    hide Ahead, IssueAll;
    if AllAhead(front, p) {
      forall k | 0 <= k < |front| && drafts[k].0.project == p
        ensures Ahead(IssueAll(Journal([], 1), drafts[..k]), drafts[k].0)
      {
        assert front[k] == drafts[k];
      }
    }
    if AllAhead(drafts, p) {
      forall k | 0 <= k < |front| && front[k].0.project == p
        ensures Ahead(IssueAll(Journal([], 1), front[..k]), front[k].0)
      {
        assert front[k] == drafts[k];
      }
    }
  }

  /** With ids given by the bus alone that is always so. */
  lemma BusIdsAreResumable(drafts: seq<(Event, int)>, p: Uuid)
    requires forall d :: d in drafts ==> d.0.id == 0
    ensures var log := IssueAll(Journal([], 1), drafts).log; Increasing(Of(log, p)) && Resumable(Of(log, p))
  {
    AssignedIdsIncrease(drafts);
    hide IssueAll, Of, Newer;
    OfIncreases(IssueAll(Journal([], 1), drafts).log, p);
    ResumableExactly(Of(IssueAll(Journal([], 1), drafts).log, p));
  }

  /**
   * The failing family: after an event whose own id is not below the bus's next one, the event
   * published next without an id is in no replay, of any window, for a consumer that saw the first.
   */
  lemma PresetIdHidesAnEvent(j: Journal, first: Event, second: Event, now: int, k: nat)
    requires first.id != 0 && first.id >= j.next && second.id == 0 && second.project == first.project
    ensures var log := Issue(Issue(j, first, now), second, now).log;
      var mine := Of(log, first.project);
      && mine != [] && mine[|mine| - 1] == log[|j.log| + 1] && mine[|mine| - 1].payload == second.payload
      && mine[|mine| - 1] !in Newer(LastOf(mine, k), first.id)
  {
    var j1 := Issue(j, first, now);
    var log := Issue(j1, second, now).log;
    OfAppend(j1.log, log[|j.log| + 1], first.project);
    var mine := Of(log, first.project);
    var w := LastOf(mine, k);
    if w != [] {
      NewerHas(w, first.id, 0);
    }
  }
}
