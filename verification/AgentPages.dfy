/**
 * The agent list (src/internal/store/memory.go): unlike the other lists it looks its cursor up among
 * the matching agents, not in the whole table. A snapshot is the matching agents in list order.
 */
module AgentPages {
  import opened Specs

  const DEFAULT_LIMIT := 50
  const MAX_LIMIT := 200

  datatype Entry = Entry(id: Uuid, created: int)

  /** (created_at, id) ascending. */
  predicate Less(a: Entry, b: Entry) {
    a.created < b.created || (a.created == b.created && a.id < b.id)
  }

  predicate Ascending(ms: seq<Entry>) {
    forall i, j :: 0 <= i < j < |ms| ==> Less(ms[i], ms[j]) && ms[i].id != ms[j].id
  }

  function PageSize(limit: int): (n: nat)
    ensures 1 <= n <= MAX_LIMIT
  {
    if limit <= 0 then DEFAULT_LIMIT else if limit > MAX_LIMIT then MAX_LIMIT else limit
  }

  /** Where the page after the cursor starts; at the top when the cursor is not among the matches. */
  function Start(ms: seq<Entry>, cursor: Option<Uuid>): (k: nat)
    ensures k <= |ms|
  {
    if cursor.None? || ms == [] then 0
    else if ms[0].id == cursor.value then 1
    else
      var k := Start(ms[1..], cursor);
      if k == 0 then 0 else k + 1
  }

  function Page(ms: seq<Entry>, cursor: Option<Uuid>, size: nat): seq<Entry> {
    var k := Start(ms, cursor);
    if k + size < |ms| then ms[k..k + size] else ms[k..]
  }

  /** The cursor for the next page, if there is one. */
  function Next(ms: seq<Entry>, cursor: Option<Uuid>, size: nat): Option<Uuid>
    requires size >= 1
  {
    var k := Start(ms, cursor);
    if k + size < |ms| then Some(ms[k + size - 1].id) else None
  }

  /** The loop that looks for the cursor. */
  method FindStart(matches: seq<Entry>, cursor: Option<Uuid>) returns (startIdx: nat)
    ensures startIdx == Start(matches, cursor)
  {
    startIdx := 0;
    if cursor.None? {
      return;
    }
    for i := 0 to |matches|
      invariant startIdx == 0
      invariant Start(matches, cursor) == if Start(matches[i..], cursor) == 0 then 0
        else i + Start(matches[i..], cursor)
    {
      assert matches[i..][0] == matches[i] && matches[i..][1..] == matches[i + 1..];
      if matches[i].id == cursor.value {
        return i + 1;
      }
    }
  }

  /** The page begins after the first match that has the cursor's id, or at the top if none has. */
  ghost predicate Begins(ms: seq<Entry>, cursor: Option<Uuid>, k: nat)
    requires k <= |ms|
  {
    if k == 0 then cursor.Some? ==> forall i :: 0 <= i < |ms| ==> ms[i].id != cursor.value
    else cursor == Some(ms[k - 1].id) && forall i :: 0 <= i < k - 1 ==> ms[i].id != ms[k - 1].id
  }

  lemma {:induction false} StartBegins(ms: seq<Entry>, cursor: Option<Uuid>, k: nat)
    requires k <= |ms|
    ensures Begins(ms, cursor, k) <==> Start(ms, cursor) == k
  {
    if cursor.Some? && ms != [] {
      StartMeans(ms, cursor.value);
      StartMeans(ms[1..], cursor.value);
      assert forall i :: 0 < i < |ms| ==> ms[i] == ms[1..][i - 1];
      if k > 1 {
        StartBegins(ms[1..], cursor, k - 1);
      }
    }
  }

  /** List once the matches are filtered and sorted. */
  method List(matches: seq<Entry>, cursor: Option<Uuid>, limit: int)
    returns (page: seq<Entry>, next: Option<Uuid>, hasMore: bool)
    ensures page == Page(matches, cursor, PageSize(limit)) && next == Next(matches, cursor, PageSize(limit))
    ensures hasMore == next.Some?
    ensures forall k :: 0 <= k <= |matches| && Begins(matches, cursor, k) ==>
      var size := if limit <= 0 then 50 else if limit > 200 then 200 else limit;
      && page == matches[k..if k + size < |matches| then k + size else |matches|]
      && next == if k + size < |matches| then Some(matches[k + size - 1].id) else None
  {
    forall k | 0 <= k <= |matches|
      ensures Begins(matches, cursor, k) <==> Start(matches, cursor) == k
    {
      StartBegins(matches, cursor, k);
    }
    var size := limit;
    if size <= 0 {
      size := DEFAULT_LIMIT;
    }
    if size > MAX_LIMIT {
      size := MAX_LIMIT;
    }
    var startIdx := FindStart(matches, cursor);
    var endIdx := startIdx + size;
    hasMore := endIdx < |matches|;
    if endIdx > |matches| {
      endIdx := |matches|;
    }
    page := matches[startIdx..endIdx];
    next := if hasMore && |page| > 0 then Some(page[|page| - 1].id) else None;
  }

  lemma {:induction false} StartMeans(ms: seq<Entry>, id: Uuid)
    ensures var k := Start(ms, Some(id));
      if k == 0 then forall i :: 0 <= i < |ms| ==> ms[i].id != id else ms[k - 1].id == id
  {
    if ms != [] && ms[0].id != id {
      StartMeans(ms[1..], id);
      assert forall i :: 0 < i < |ms| ==> ms[i] == ms[1..][i - 1];
    }
  }

  lemma StartAt(ms: seq<Entry>, j: nat)
    requires Ascending(ms) && j < |ms|
    ensures Start(ms, Some(ms[j].id)) == j + 1
  {
    StartMeans(ms, ms[j].id);
  }

  predicate Listed(ms: seq<Entry>, id: Uuid) {
    exists i :: 0 <= i < |ms| && ms[i].id == id
  }

  /** A cursor sends the client back to the first page if and only if its agent is no longer listed. */
  lemma LostCursorStartsOver(ms: seq<Entry>, id: Uuid, size: nat)
    requires Ascending(ms) && ms != [] && size >= 1
    ensures Page(ms, Some(id), size) == Page(ms, None, size) <==> !Listed(ms, id)
  {
    StartMeans(ms, id);
    var k := Start(ms, Some(id));
    assert Page(ms, None, size)[0] == ms[0];
    if 0 < k < |ms| {
      assert Page(ms, Some(id), size)[0] == ms[k];
      assert ms[k].id != ms[0].id;
    }
  }

  // ------------------------------------------------------------------ following the cursors

  function Walk(snaps: seq<seq<Entry>>, cursor: Option<Uuid>, size: nat): seq<Entry>
    requires size >= 1
  {
    if snaps == [] then []
    else
      var next := Next(snaps[0], cursor, size);
      Page(snaps[0], cursor, size) + (if next.None? then [] else Walk(snaps[1..], next, size))
  }

  predicate Ended(snaps: seq<seq<Entry>>, cursor: Option<Uuid>, size: nat)
    requires size >= 1
  {
    snaps != [] &&
    var next := Next(snaps[0], cursor, size);
    next.None? || Ended(snaps[1..], next, size)
  }

  /** Agents come and go between the requests; their ids and creation times stay. */
  ghost predicate Steady(snaps: seq<seq<Entry>>) {
    && (forall k :: 0 <= k < |snaps| ==> Ascending(snaps[k]))
    && forall j, k, a, b :: 0 <= j < |snaps| && 0 <= k < |snaps| && a in snaps[j] && b in snaps[k] && a.id == b.id ==>
         a == b
  }

  lemma SteadyTail(snaps: seq<seq<Entry>>)
    requires Steady(snaps) && snaps != []
    ensures Steady(snaps[1..])
  {
    forall j, k, a, b | 0 <= j < |snaps[1..]| && 0 <= k < |snaps[1..]| && a in snaps[1..][j] && b in snaps[1..][k]
        && a.id == b.id
      ensures a == b
    {
      assert a in snaps[j + 1] && b in snaps[k + 1];
    }
  }

  /** An entry comes after the cursor's. */
  predicate Past(ms: seq<Entry>, cursor: Option<Uuid>, e: Entry) {
    forall c :: c in ms && cursor == Some(c.id) ==> Less(c, e)
  }

  lemma PageIsPast(ms: seq<Entry>, cursor: Option<Uuid>, size: nat)
    requires Ascending(ms) && size >= 1
    ensures Ascending(Page(ms, cursor, size)) && forall e :: e in Page(ms, cursor, size) ==>
      e in ms && Past(ms, cursor, e)
    ensures Next(ms, cursor, size).Some? ==>
      var page := Page(ms, cursor, size); |page| == size && Next(ms, cursor, size) == Some(page[size - 1].id)
  {
    var k, page := Start(ms, cursor), Page(ms, cursor, size);
    forall e | e in page
      ensures e in ms && Past(ms, cursor, e)
    {
      var j :| 0 <= j < |page| && page[j] == e;
      assert ms[k + j] == e;
      forall c | c in ms && cursor == Some(c.id)
        ensures Less(c, e)
      {
        var i: nat :| i < |ms| && ms[i] == c;
        StartAt(ms, i);
      }
    }
  }

  ghost predicate FromSnaps(snaps: seq<seq<Entry>>, es: seq<Entry>) {
    forall e :: e in es ==> exists k :: 0 <= k < |snaps| && e in snaps[k]
  }

  lemma JoinAscends(xs: seq<Entry>, ys: seq<Entry>)
    requires Ascending(xs) && Ascending(ys) && xs != [] && forall y :: y in ys ==> Less(xs[|xs| - 1], y)
    requires forall x, y :: x in xs && y in ys && x.id == y.id ==> x == y
    ensures Ascending(xs + ys)
  {
    var all := xs + ys;
    forall i, j | 0 <= i < j < |all|
      ensures Less(all[i], all[j]) && all[i].id != all[j].id
    {
      if i < |xs| <= j {
        assert all[i] in xs && all[j] in ys && (i == |xs| - 1 || Less(xs[i], xs[|xs| - 1]));
      }
    }
  }

  // ------------------------------------------------------------------ which lost cursors do harm

  function Cursor(after: Option<Entry>): Option<Uuid> {
    if after.Some? then Some(after.value.id) else None
  }

  function Lead(after: Option<Entry>): seq<Entry> {
    if after.Some? then [after.value] else []
  }

  /** Nothing that is listed comes before the cursor's agent, or that agent is listed itself. */
  predicate Harmless(ms: seq<Entry>, after: Option<Entry>) {
    after.Some? ==> Listed(ms, after.value.id) || forall e :: e in ms ==> Less(after.value, e)
  }

  /** At each request of the walk. */
  predicate HarmlessThroughout(snaps: seq<seq<Entry>>, after: Option<Entry>, size: nat)
    requires size >= 1
  {
    snaps != [] ==>
      && Harmless(snaps[0], after)
      && var page := Page(snaps[0], Cursor(after), size);
         Next(snaps[0], Cursor(after), size).Some? && page != [] ==>
           HarmlessThroughout(snaps[1..], Some(page[|page| - 1]), size)
  }

  /** The cursor's agent, wherever it is listed, is the one the client was shown. */
  ghost predicate Shown(snaps: seq<seq<Entry>>, after: Option<Entry>) {
    forall k, e :: after.Some? && 0 <= k < |snaps| && e in snaps[k] && e.id == after.value.id ==> e == after.value
  }

  /** The page is all after the cursor's agent exactly when losing the cursor does no harm. */
  lemma TurnExactly(ms: seq<Entry>, after: Option<Entry>, size: nat)
    requires Ascending(ms) && size >= 1
    requires after.Some? ==> forall e :: e in ms && e.id == after.value.id ==> e == after.value
    ensures Harmless(ms, after) <==>
      (after.Some? ==> forall e :: e in Page(ms, Cursor(after), size) ==>
          Less(after.value, e) && e.id != after.value.id)
  {
    if after.Some? {
      var a := after.value;
      PageIsPast(ms, Some(a.id), size);
      if Listed(ms, a.id) {
        var i :| 0 <= i < |ms| && ms[i].id == a.id;
        assert ms[i] in ms && ms[i] == a;
        assert forall e :: e in Page(ms, Some(a.id), size) ==> e in ms && Less(a, e) && (e.id == a.id ==> e == a);
      } else if ms != [] {
        LostCursorStartsOver(ms, a.id, size);
        assert Page(ms, None, size)[0] == ms[0];
        assert ms[0] in Page(ms, None, size);
        assert forall e :: e in ms ==> e.id != a.id && (e == ms[0] || Less(ms[0], e));
      }
    }
  }

  lemma {:induction false} WalkIsListed(snaps: seq<seq<Entry>>, cursor: Option<Uuid>, size: nat)
    requires Steady(snaps) && size >= 1
    ensures FromSnaps(snaps, Walk(snaps, cursor, size))
    decreases |snaps|
  {
    if snaps != [] {
      PageIsPast(snaps[0], cursor, size);
      SteadyTail(snaps);
      var next := Next(snaps[0], cursor, size);
      WalkIsListed(snaps[1..], next, size);
      hide Steady, Page, Next, Past, Ascending;
      forall e | e in Walk(snaps, cursor, size)
        ensures exists k :: 0 <= k < |snaps| && e in snaps[k]
      {
        if e !in Page(snaps[0], cursor, size) {
          var k :| 0 <= k < |snaps[1..]| && e in snaps[1..][k];
          assert e in snaps[k + 1];
        } else {
          assert e in snaps[0];
        }
      }
    }
  }

  lemma SliceAscends(ms: seq<Entry>, lo: nat, hi: nat)
    requires Ascending(ms) && lo <= hi <= |ms|
    ensures Ascending(ms[lo..hi])
  {
  }

  lemma FirstIsLess(first: Entry, ys: seq<Entry>)
    requires Ascending([first] + ys)
    ensures Ascending(ys) && forall y :: y in ys ==> Less(first, y)
  {
    var all := [first] + ys;
    assert all[1..] == ys;
    SliceAscends(all, 1, |all|);
    forall y | y in ys
      ensures Less(first, y)
    {
      var j :| 0 <= j < |ys| && ys[j] == y;
      assert all[0] == first && all[j + 1] == y;
    }
  }

  /** Two ascending runs that share an entry in the middle. */
  lemma AscendingParts(xs: seq<Entry>, last: Entry, ys: seq<Entry>)
    requires forall x, y :: x in xs + [last] && y in ys && x.id == y.id ==> x == y
    ensures Ascending(xs + [last] + ys) <==> Ascending(xs + [last]) && Ascending([last] + ys)
  {
    hide Ascending, Less;
    var all := xs + [last] + ys;
    assert all[..|xs| + 1] == xs + [last] && all[|xs|..] == [last] + ys;
    if Ascending(all) {
      SliceAscends(all, 0, |xs| + 1);
      SliceAscends(all, |xs|, |all|);
      assert all[|xs|..|all|] == all[|xs|..] && all[0..|xs| + 1] == all[..|xs| + 1];
    }
    if Ascending(xs + [last]) && Ascending([last] + ys) {
      FirstIsLess(last, ys);
      JoinAscends(xs + [last], ys);
    }
  }

  lemma FirstAscends(a: Entry, page: seq<Entry>)
    requires Ascending(page)
    ensures Ascending([a] + page) <==> forall e :: e in page ==> Less(a, e) && e.id != a.id
  {
    var all := [a] + page;
    assert forall i :: 0 < i < |all| ==> all[i] == page[i - 1] && all[i] in page;
    if Ascending(all) {
      forall e | e in page
        ensures Less(a, e) && e.id != a.id
      {
        var i :| 0 <= i < |page| && page[i] == e;
        assert all[0] == a && all[i + 1] == e;
      }
    }
  }

  lemma TurnAscends(ms: seq<Entry>, after: Option<Entry>, size: nat)
    requires Ascending(ms) && size >= 1
    requires after.Some? ==> forall e :: e in ms && e.id == after.value.id ==> e == after.value
    ensures Ascending(Lead(after) + Page(ms, Cursor(after), size)) <==> Harmless(ms, after)
  {
    hide Ascending, Page, Harmless, Less;
    TurnExactly(ms, after, size);
    PageIsPast(ms, Cursor(after), size);
    var page := Page(ms, Cursor(after), size);
    if after.Some? {
      FirstAscends(after.value, page);
    } else {
      assert [] + page == page;
    }
  }

  lemma SharedIdIsShown(snaps: seq<seq<Entry>>, after: Option<Entry>, page: seq<Entry>, rest: seq<Entry>)
    requires Steady(snaps) && Shown(snaps, after) && snaps != [] && FromSnaps(snaps[1..], rest)
    requires forall e :: e in page ==> e in snaps[0]
    ensures forall x, y :: x in Lead(after) + page && y in rest && x.id == y.id ==> x == y
  {
    forall x, y | x in Lead(after) + page && y in rest && x.id == y.id
      ensures x == y
    {
      var k :| 0 <= k < |snaps[1..]| && y in snaps[1..][k];
      assert y in snaps[k + 1];
    }
  }

  /** From any point of the walk on. */
  lemma {:induction false} WalkAscendsFrom(snaps: seq<seq<Entry>>, after: Option<Entry>, size: nat)
    requires Steady(snaps) && size >= 1 && Shown(snaps, after)
    ensures Ascending(Lead(after) + Walk(snaps, Cursor(after), size)) <==> HarmlessThroughout(snaps, after, size)
    decreases |snaps|
  {
    hide Ascending, Steady, Shown, Page, Next, Harmless, FromSnaps;
    if snaps == [] {
      assert Ascending(Lead(after) + []) by { LeadAscends(after); }
    } else {
      var page, next := Page(snaps[0], Cursor(after), size), Next(snaps[0], Cursor(after), size);
      SteadyHead(snaps, after);
      TurnAscends(snaps[0], after, size);
      PageIsPast(snaps[0], Cursor(after), size);
      if next.Some? {
        var last, rest := page[size - 1], Walk(snaps[1..], next, size);
        SteadyTail(snaps);
        ShownNext(snaps, page[size - 1]);
        WalkAscendsFrom(snaps[1..], Some(last), size);
        WalkIsListed(snaps[1..], next, size);
        SharedIdIsShown(snaps, after, page, rest);
        var front := Lead(after) + page[..size - 1];
        assert front + [last] == Lead(after) + page;
        AscendingParts(front, last, rest);
        assert Lead(after) + Walk(snaps, Cursor(after), size) == front + [last] + rest;
      } else {
        assert Lead(after) + Walk(snaps, Cursor(after), size) == Lead(after) + page;
      }
    }
  }

  lemma LeadAscends(after: Option<Entry>)
    ensures Ascending(Lead(after) + [])
  {
  }

  lemma SteadyHead(snaps: seq<seq<Entry>>, after: Option<Entry>)
    requires Steady(snaps) && Shown(snaps, after) && snaps != []
    ensures Ascending(snaps[0])
      && (after.Some? ==> forall e :: e in snaps[0] && e.id == after.value.id ==> e == after.value)
  {
  }

  lemma ShownNext(snaps: seq<seq<Entry>>, last: Entry)
    requires Steady(snaps) && snaps != [] && last in snaps[0]
    ensures Shown(snaps[1..], Some(last))
  {
    assert forall k :: 0 <= k < |snaps[1..]| ==> snaps[1..][k] == snaps[k + 1];
  }

  /**
   * Whoever joins or leaves the list, the pages together are in strictly ascending order, so that no
   * agent comes twice, if and only if each cursor's agent is still listed when the cursor is used or
   * no listed agent comes before it.
   */
  lemma WalkAscendsExactly(snaps: seq<seq<Entry>>, size: nat)
    requires Steady(snaps) && size >= 1
    ensures Ascending(Walk(snaps, None, size)) <==> HarmlessThroughout(snaps, None, size)
  {
    WalkAscendsFrom(snaps, None, size);
    assert [] + Walk(snaps, None, size) == Walk(snaps, None, size);
  }

  // ------------------------------------------------------------------ what a walk meets

  /** The agent is listed in every snapshot. */
  ghost predicate Stays(snaps: seq<seq<Entry>>, e: Entry) {
    forall k :: 0 <= k < |snaps| ==> e in snaps[k]
  }

  /** A listed entry past the cursor that the page does not show comes after the page's last one. */
  lemma NotYetMet(ms: seq<Entry>, cursor: Option<Uuid>, size: nat, e: Entry)
    requires Ascending(ms) && size >= 1 && e in ms && Past(ms, cursor, e) && e !in Page(ms, cursor, size)
    ensures Next(ms, cursor, size).Some? && Less(Page(ms, cursor, size)[size - 1], e)
  {
    var k, page := Start(ms, cursor), Page(ms, cursor, size);
    var i: nat :| i < |ms| && ms[i] == e;
    if cursor.Some? {
      StartMeans(ms, cursor.value);
      assert k > 0 ==> ms[k - 1] in ms;
    }
    hide Start, Past;
    assert i >= k;
    forall j | k <= j < k + |page|
      ensures ms[j] in page
    {
      InSlice(ms, k, k + |page|, j);
    }
    assert i >= k + size;
  }

  lemma InSlice(ms: seq<Entry>, lo: nat, hi: nat, j: nat)
    requires lo <= j < hi <= |ms|
    ensures ms[j] in ms[lo..hi]
  {
    assert ms[lo..hi][j - lo] == ms[j];
  }

  /** An agent listed throughout is met if the walk comes to its end, starting over or not. */
  lemma {:induction false} WalkMeets(snaps: seq<seq<Entry>>, cursor: Option<Uuid>, size: nat, e: Entry)
    requires Steady(snaps) && size >= 1 && Ended(snaps, cursor, size) && Stays(snaps, e)
    requires Past(snaps[0], cursor, e)
    ensures e in Walk(snaps, cursor, size)
    decreases |snaps|
  {
    var page, next := Page(snaps[0], cursor, size), Next(snaps[0], cursor, size);
    assert e in snaps[0];
    if e !in page {
      NotYetMet(snaps[0], cursor, size, e);
      PageIsPast(snaps[0], cursor, size);
      var last := page[size - 1];
      assert last in page && last in snaps[0] && snaps[1..][0] == snaps[1];
      SteadyTail(snaps);
      assert forall k :: 0 <= k < |snaps[1..]| ==> snaps[1..][k] == snaps[k + 1];
      assert Stays(snaps[1..], e);
      assert Past(snaps[1], next, e);
      WalkMeets(snaps[1..], next, size, e);
    }
  }

  const FIRST := Entry(1, 10)
  const SECOND := Entry(2, 20)
  const THIRD := Entry(3, 30)

  lemma PagesOfTheExample()
    ensures Page([FIRST, SECOND, THIRD], None, 2) == [FIRST, SECOND] && Next([FIRST, SECOND, THIRD], None, 2) == Some(2)
    ensures Page([FIRST, THIRD], Some(2), 2) == [FIRST, THIRD] && Next([FIRST, THIRD], Some(2), 2) == None
  {
    assert [FIRST, THIRD][1..] == [THIRD] && [THIRD][1..] == [];
    assert Start([THIRD], Some(2)) == 0;
  }

  lemma SteadyPair(m: seq<Entry>, m': seq<Entry>)
    requires Ascending(m) && Ascending(m')
    requires forall a: Entry, b: Entry :: a in m + m' && b in m + m' && a.id == b.id ==> a == b
    ensures Steady([m, m'])
  {
    var snaps := [m, m'];
    assert forall k :: 0 <= k < |snaps| ==> snaps[k] == m || snaps[k] == m';
    forall j, k, a: Entry, b: Entry | 0 <= j < |snaps| && 0 <= k < |snaps| && a in snaps[j] && b in snaps[k]
        && a.id == b.id
      ensures a == b
    {
      assert a in m + m' && b in m + m';
    }
    hide Ascending;
  }

  lemma WalkTwo(m: seq<Entry>, m': seq<Entry>, id: Uuid, size: nat)
    requires size >= 1 && Next(m, None, size) == Some(id) && Next(m', Some(id), size).None?
    ensures Walk([m, m'], None, size) == Page(m, None, size) + Page(m', Some(id), size) && Ended([m, m'], None, size)
  {
    hide Page, Next;
    assert [m, m'][1..] == [m'];
    assert Walk([m'], Some(id), size) == Page(m', Some(id), size) && Ended([m'], Some(id), size);
  }

  /** A page of two, then the second agent retires: the next page shows the first agent again. */
  lemma RetiredCursorRepeatsAnAgent()
    ensures var snaps := [[FIRST, SECOND, THIRD], [FIRST, THIRD]];
      Steady(snaps) && Ended(snaps, None, 2) && Walk(snaps, None, 2) == [FIRST, SECOND, FIRST, THIRD]
  {
    PagesOfTheExample();
    hide Page, Next, Walk, Ended, Steady;
    WalkTwo([FIRST, SECOND, THIRD], [FIRST, THIRD], 2, 2);
    SteadyPair([FIRST, SECOND, THIRD], [FIRST, THIRD]);
  }
}
