/**
 * Keyset pagination in the in-memory store (src/internal/store/memory.go): the List methods of the
 * execution and deliverable stores, which are the same code up to the status filter.
 */
module Pagination {
  import opened Specs

  const ZERO_TIME := 0
  const DEFAULT_LIMIT := 50
  const MAX_LIMIT := 200

  /** The columns List reads; `time` is started_at or created_at. */
  datatype Row = Row(id: Uuid, time: int, taskId: Uuid, agentId: Uuid, status: string)

  /** NIL and "" switch a filter off; a deliverable filter has no status. */
  datatype Filter = Filter(taskId: Uuid, agentId: Uuid, status: string, limit: int)

  type Table = map<Uuid, Row>

  predicate Matches(f: Filter, r: Row) {
    && (f.agentId == NIL || r.agentId == f.agentId)
    && (f.taskId == NIL || r.taskId == f.taskId)
    && (f.status == "" || r.status == f.status)
  }

  /** (time, id) of a comes strictly below (time, id) of b. */
  predicate Below(t: int, id: Uuid, t': int, id': Uuid) {
    t < t' || (t == t' && id < id')
  }

  predicate After(a: Row, b: Row) {
    Below(a.time, a.id, b.time, b.id)
  }

  predicate Descending(xs: seq<Row>) {
    forall i, j :: 0 <= i < j < |xs| ==> After(xs[j], xs[i])
  }

  predicate Keyed(t: Table) {
    forall id :: id in t ==> t[id].id == id
  }

  /** Every row has an id and a timestamp. */
  predicate Stamped(t: Table) {
    Keyed(t) && NIL !in t && forall id :: id in t ==> t[id].time != ZERO_TIME
  }

  /** The cursor is applied only if it names a row with a timestamp. */
  predicate Cuts(t: Table, cursor: Uuid) {
    cursor != NIL && cursor in t && t[cursor].time != ZERO_TIME
  }

  predicate PassesCursor(t: Table, cursor: Uuid, r: Row) {
    Cuts(t, cursor) ==> Below(r.time, r.id, t[cursor].time, cursor)
  }

  /** The rows a request with this cursor has still to see. */
  ghost function Selected(t: Table, f: Filter, cursor: Uuid): set<Row> {
    set id | id in t && Matches(f, t[id]) && PassesCursor(t, cursor, t[id]) :: t[id]
  }

  function PageSize(f: Filter): (n: nat)
    ensures 1 <= n <= MAX_LIMIT
  {
    if f.limit <= 0 then DEFAULT_LIMIT else if f.limit > MAX_LIMIT then MAX_LIMIT else f.limit
  }

  // ------------------------------------------------------------------ the sorted listing of a set

  /**
   * The rows that meet each filter given and, if the cursor names a row with a timestamp, come after that
   * one: in the order of descending time and then descending id.
   */
  ghost predicate InRequestedOrder(t: Table, f: Filter, cursor: Uuid, xs: seq<Row>) {
    && (forall r :: r in xs <==>
          && r.id in t && t[r.id] == r
          && (f.agentId == NIL || r.agentId == f.agentId) && (f.taskId == NIL || r.taskId == f.taskId)
          && (f.status == "" || r.status == f.status)
          && (cursor != NIL && cursor in t && t[cursor].time != 0 ==>
                r.time < t[cursor].time || (r.time == t[cursor].time && r.id < cursor)))
    && (forall i, j :: 0 <= i < j < |xs| ==>
          xs[j].time < xs[i].time || (xs[j].time == xs[i].time && xs[j].id < xs[i].id))
  }

  lemma ListsMeans(t: Table, f: Filter, cursor: Uuid, xs: seq<Row>)
    requires Keyed(t) && Lists(Selected(t, f, cursor), xs)
    ensures InRequestedOrder(t, f, cursor, xs)
  {
    assert forall r :: r in xs <==> r in Selected(t, f, cursor);
  }

  /** No two rows of the set share an id. */
  ghost predicate Distinct(rows: set<Row>) {
    forall a, b :: a in rows && b in rows && a.id == b.id ==> a == b
  }

  ghost predicate Lists(rows: set<Row>, xs: seq<Row>) {
    Descending(xs) && forall r :: r in rows <==> r in xs
  }

  lemma ListsEmpty(rows: set<Row>, xs: seq<Row>)
    requires Lists(rows, xs)
    ensures xs == [] <==> rows == {}
  {
    if xs != [] {
      assert xs[0] in rows;
    }
  }

  /** A set has at most one descending listing. */
  lemma {:induction false} ListingUnique(rows: set<Row>, xs: seq<Row>, ys: seq<Row>)
    requires Lists(rows, xs) && Lists(rows, ys)
    ensures xs == ys
    decreases |xs|
  {
    ListsEmpty(rows, xs);
    ListsEmpty(rows, ys);
    if rows != {} {
      assert xs[0] in rows && xs[0] in ys && ys[0] in rows && ys[0] in xs;
      assert xs[0] == ys[0];
      ListsTail(rows, xs);
      ListsTail(rows, ys);
      ListingUnique(rows - {xs[0]}, xs[1..], ys[1..]);
    }
  }

  lemma ListsTail(rows: set<Row>, xs: seq<Row>)
    requires Lists(rows, xs) && xs != []
    ensures Lists(rows - {xs[0]}, xs[1..])
  {
    forall r
      ensures r in rows - {xs[0]} <==> r in xs[1..]
    {
      assert r in xs <==> r == xs[0] || r in xs[1..];
      if r in xs[1..] {
        var k :| 0 <= k < |xs[1..]| && xs[1..][k] == r;
        assert After(xs[k + 1], xs[0]);
      }
    }
  }

  function Insert(xs: seq<Row>, r: Row): seq<Row> {
    if xs == [] || After(xs[0], r) then [r] + xs else [xs[0]] + Insert(xs[1..], r)
  }

  /** The order sort.Slice leaves the rows in. */
  function Sorted(xs: seq<Row>): seq<Row> {
    if xs == [] then [] else Insert(Sorted(xs[1..]), xs[0])
  }

  lemma {:induction false} InsertKeeps(xs: seq<Row>, r: Row)
    requires Descending(xs) && forall x :: x in xs ==> x.id != r.id
    ensures Descending(Insert(xs, r)) && forall x :: x in Insert(xs, r) <==> x in xs || x == r
  {
    if xs != [] && !After(xs[0], r) {
      assert forall x :: x in xs <==> x == xs[0] || x in xs[1..];
      assert forall x :: x in xs[1..] ==> After(x, xs[0]);
      InsertKeeps(xs[1..], r);
      var ys := Insert(xs[1..], r);
      assert After(r, xs[0]);
      forall j | 0 <= j < |ys|
        ensures After(ys[j], xs[0])
      {
        assert ys[j] in ys;
      }
    }
  }

  ghost predicate DistinctIds(xs: seq<Row>) {
    forall i, j :: 0 <= i < j < |xs| ==> xs[i].id != xs[j].id
  }

  lemma {:induction false} SortedLists(xs: seq<Row>)
    requires DistinctIds(xs)
    ensures Descending(Sorted(xs)) && forall x :: x in Sorted(xs) <==> x in xs
  {
    if xs != [] {
      SortedLists(xs[1..]);
      forall x | x in Sorted(xs[1..])
        ensures x.id != xs[0].id
      {
        var k :| 0 <= k < |xs[1..]| && xs[1..][k] == x;
        assert xs[k + 1] == x;
      }
      InsertKeeps(Sorted(xs[1..]), xs[0]);
    }
  }

  // ------------------------------------------------------------------ the store's List

  function Kept(t: Table, cursor: Uuid, xs: seq<Row>): seq<Row> {
    if xs == [] then []
    else
      var last := xs[|xs| - 1];
      Kept(t, cursor, xs[..|xs| - 1]) + (if PassesCursor(t, cursor, last) then [last] else [])
  }

  lemma KeptNext(t: Table, cursor: Uuid, xs: seq<Row>, i: nat)
    requires i < |xs|
    ensures Kept(t, cursor, xs[..i + 1])
      == Kept(t, cursor, xs[..i]) + (if PassesCursor(t, cursor, xs[i]) then [xs[i]] else [])
  {
    assert xs[..i + 1][..i] == xs[..i];
  }

  lemma {:induction false} KeptMeans(t: Table, cursor: Uuid, xs: seq<Row>)
    ensures |Kept(t, cursor, xs)| <= |xs|
    ensures forall x :: x in Kept(t, cursor, xs) <==> x in xs && PassesCursor(t, cursor, x)
    ensures DistinctIds(xs) ==> DistinctIds(Kept(t, cursor, xs))
  {
    if xs != [] {
      var front, last := xs[..|xs| - 1], xs[|xs| - 1];
      KeptMeans(t, cursor, front);
      assert forall x :: x in xs <==> x in front || x == last;
      if DistinctIds(xs) {
        forall x | x in Kept(t, cursor, front)
          ensures x.id != last.id
        {
          var k :| 0 <= k < |front| && front[k] == x;
          assert xs[k] == x;
        }
      }
    }
  }

  class RowStore {
    var rows: Table

    ghost predicate Valid()
      reads this
    {
      Keyed(rows)
    }

    constructor ()
      ensures Valid() && rows == map[]
    {
      rows := map[];
    }

    /** The cursor cut: rows that pass it slide down over the ones that do not. */
    method CutInPlace(filtered: array<Row>, n: nat, cursor: Uuid) returns (kept: nat)
      requires n <= filtered.Length && Cuts(rows, cursor)
      modifies filtered
      ensures kept <= n && filtered[..kept] == Kept(rows, cursor, old(filtered[..n]))
    {
      ghost var all := filtered[..n];
      var at := rows[cursor].time;
      kept := 0;
      for i := 0 to n
        invariant kept <= i && forall k :: i <= k < n ==> filtered[k] == all[k]
        invariant filtered[..kept] == Kept(rows, cursor, all[..i])
      {
        KeptNext(rows, cursor, all, i);
        var r := filtered[i];
        if r.time < at || (r.time == at && r.id < cursor) {
          filtered[kept] := r;
          kept := kept + 1;
          assert filtered[..kept] == filtered[..kept - 1] + [r];
        }
      }
      assert all[..n] == all;
    }

    /** The filter pass. Go visits a map in any order, and so does the choice of `id` here. */
    method Filtered(f: Filter) returns (filtered: array<Row>, n: nat)
      requires Valid()
      ensures fresh(filtered) && n <= filtered.Length && DistinctIds(filtered[..n])
      ensures forall r :: r in filtered[..n] <==> r.id in rows && rows[r.id] == r && Matches(f, r)
    {
      filtered := new Row[|rows|](_ => Row(NIL, ZERO_TIME, NIL, NIL, ""));
      n := 0;
      var todo := rows.Keys;
      while todo != {}
        invariant todo <= rows.Keys && n + |todo| <= |rows| == filtered.Length
        invariant fresh(filtered)
        invariant forall r :: r in filtered[..n] <==> r.id in rows.Keys - todo && rows[r.id] == r && Matches(f, r)
        invariant DistinctIds(filtered[..n])
        decreases todo
      {
        var id :| id in todo;
        todo := todo - {id};
        ghost var before := filtered[..n];
        var e := rows[id];
        if f.agentId != NIL && e.agentId != f.agentId {
          continue;
        }
        if f.taskId != NIL && e.taskId != f.taskId {
          continue;
        }
        if f.status != "" && e.status != f.status {
          continue;
        }
        filtered[n] := e;
        n := n + 1;
        assert filtered[..n] == before + [e];
        AppendDistinct(before, e);
      }
    }

    /** Filter, cursor and sort. */
    method Matching(f: Filter, cursor: Uuid) returns (sorted: seq<Row>)
      requires Valid()
      ensures Lists(Selected(rows, f, cursor), sorted) && InRequestedOrder(rows, f, cursor, sorted)
    {
      hide Sorted, Kept, Descending, DistinctIds, InRequestedOrder;
      var filtered, n := Filtered(f);
      ghost var matching := filtered[..n];
      if cursor != NIL && cursor in rows && rows[cursor].time != ZERO_TIME {
        n := CutInPlace(filtered, n, cursor);
      }
      KeptMeans(rows, cursor, matching);
      sorted := Sorted(filtered[..n]);
      SortedLists(filtered[..n]);
      ListsMeans(rows, f, cursor, sorted);
    }

    /** One page; `all` is the sorted listing it is cut from. */
    method List(f: Filter, cursor: Uuid) returns (items: seq<Row>, next: Uuid, ghost all: seq<Row>)
      requires Valid()
      ensures Lists(Selected(rows, f, cursor), all) && InRequestedOrder(rows, f, cursor, all)
      ensures items == Page(all, PageSize(f)) && next == NextCursor(all, PageSize(f))
      ensures var size := if f.limit <= 0 then 50 else if f.limit > 200 then 200 else f.limit;
        items == all[..if size < |all| then size else |all|]
      ensures next == if |items| < |all| then items[|items| - 1].id else NIL
    {
      hide Lists, Selected, InRequestedOrder;
      var sorted := Matching(f, cursor);
      var end := PageSize(f);
      if end > |sorted| {
        end := |sorted|;
      }
      items := sorted[..end];
      next := if end < |sorted| && end > 0 then items[end - 1].id else NIL;
      all := sorted;
    }
  }

  lemma AppendDistinct(xs: seq<Row>, r: Row)
    requires DistinctIds(xs) && forall x :: x in xs ==> x.id != r.id
    ensures DistinctIds(xs + [r]) && forall x :: x in xs + [r] <==> x in xs || x == r
  {
  }

  function Page(all: seq<Row>, size: nat): seq<Row> {
    if size < |all| then all[..size] else all
  }

  function NextCursor(all: seq<Row>, size: nat): Uuid
    requires size >= 1
  {
    if size < |all| then all[size - 1].id else NIL
  }

  // ------------------------------------------------------------------ following the cursors

  /** The first row of a set in the listing order. */
  ghost predicate Leads(r: Row, rows: set<Row>) {
    r in rows && forall x :: x in rows && x != r ==> After(x, r)
  }

  lemma {:induction false} SomeRowLeads(rows: set<Row>)
    requires rows != {} && Distinct(rows)
    ensures exists r :: Leads(r, rows)
    decreases |rows|
  {
    var x :| x in rows;
    if rows == {x} {
      assert Leads(x, rows);
    } else {
      var others := rows - {x};
      SomeRowLeads(others);
      var r :| Leads(r, others);
      if After(x, r) {
        assert Leads(r, rows);
      } else {
        assert After(r, x);
        forall y | y in rows && y != x
          ensures After(y, x)
        {
          assert y in others && (y == r || After(y, r));
        }
        assert Leads(x, rows);
      }
    }
  }

  ghost function Listing(rows: set<Row>): (xs: seq<Row>)
    requires Distinct(rows)
    ensures Lists(rows, xs)
    decreases |rows|
  {
    if rows == {} then []
    else
      SomeRowLeads(rows);
      var r :| Leads(r, rows);
      var rest := Listing(rows - {r});
      assert forall x :: x in rest <==> x in rows - {r};
      [r] + rest
  }

  ghost function Rest(t: Table, f: Filter, cursor: Uuid): (xs: seq<Row>)
    requires Keyed(t)
    ensures Lists(Selected(t, f, cursor), xs)
  {
    Listing(Selected(t, f, cursor))
  }

  /** What a request has still to see, in the terms of the request alone. */
  lemma RestMeans(t: Table, f: Filter, cursor: Uuid)
    requires Keyed(t)
    ensures InRequestedOrder(t, f, cursor, Rest(t, f, cursor))
  {
    ListsMeans(t, f, cursor, Rest(t, f, cursor));
  }

  /** The rows that a client gets by following the cursors, one snapshot of the table a request. */
  ghost function Walk(tables: seq<Table>, f: Filter, cursor: Uuid): seq<Row>
    requires forall t :: t in tables ==> Keyed(t)
    decreases |tables|
  {
    if tables == [] then []
    else
      var all, next := Rest(tables[0], f, cursor), NextCursor(Rest(tables[0], f, cursor), PageSize(f));
      Page(all, PageSize(f)) + (if next == NIL then [] else Walk(tables[1..], f, next))
  }

  /** One of these requests came back with an empty cursor. */
  ghost predicate Ended(tables: seq<Table>, f: Filter, cursor: Uuid)
    requires forall t :: t in tables ==> Keyed(t)
    decreases |tables|
  {
    tables != [] &&
    var next := NextCursor(Rest(tables[0], f, cursor), PageSize(f));
    next == NIL || Ended(tables[1..], f, next)
  }

  /** Rows may be added and their status may change; their id and timestamp do not. */
  ghost predicate Grows(t: Table, t': Table) {
    forall id :: id in t ==> id in t' && t'[id].time == t[id].time
  }

  ghost predicate Growing(tables: seq<Table>) {
    && (forall t :: t in tables ==> Stamped(t))
    && forall i, j :: 0 <= i < j < |tables| ==> Grows(tables[i], tables[j])
  }

  /** The row can serve as a cursor. */
  predicate Pointable(r: Row) {
    r.id != NIL && r.time != ZERO_TIME
  }

  lemma NotAbove(all: seq<Row>, k: nat, j: nat)
    requires Descending(all) && 0 < k <= |all| && j < |all| && After(all[j], all[k - 1])
    ensures j >= k
  {
  }

  /** What a page's cursor leaves of the same table is what the page left. */
  lemma CursorSplits(t: Table, f: Filter, cursor: Uuid, k: nat)
    requires Keyed(t) && 0 < k < |Rest(t, f, cursor)| && Pointable(Rest(t, f, cursor)[k - 1])
    ensures var all := Rest(t, f, cursor);
      Cuts(t, all[k - 1].id) && t[all[k - 1].id] == all[k - 1] && Rest(t, f, all[k - 1].id) == all[k..]
  {
    var all := Rest(t, f, cursor);
    var last, next := all[k - 1], all[k - 1].id;
    assert last in Selected(t, f, cursor);
    forall r
      ensures r in Selected(t, f, next) <==> r in all[k..]
    {
      if r in all[k..] {
        var j :| 0 <= j < |all[k..]| && all[k..][j] == r;
        assert all[k + j] == r && After(r, last) && r in Selected(t, f, cursor);
      }
      if r in Selected(t, f, next) {
        assert r in Selected(t, f, cursor) by {
          assert After(r, last) && PassesCursor(t, cursor, last);
        }
        var j: nat :| j < |all| && all[j] == r;
        NotAbove(all, k, j);
        assert all[k..][j - k] == r;
      }
    }
    ListingUnique(Selected(t, f, next), Rest(t, f, next), all[k..]);
  }

  /** A page whose last row has no id or no timestamp sends the client back to the first page. */
  lemma UnpointableStartsOver(t: Table, f: Filter, cursor: Uuid, k: nat)
    requires Keyed(t) && 0 < k < |Rest(t, f, cursor)| && !Pointable(Rest(t, f, cursor)[k - 1])
    ensures Rest(t, f, Rest(t, f, cursor)[k - 1].id) == Rest(t, f, NIL)
  {
    var last := Rest(t, f, cursor)[k - 1];
    assert last in Selected(t, f, cursor) && t[last.id] == last;
    assert !Cuts(t, last.id) && !Cuts(t, NIL);
    assert Selected(t, f, last.id) == Selected(t, f, NIL);
  }

  /**
   * On any table, whatever its other rows: the cursor of a page that is not the last leads to exactly
   * the rows after it if and only if the page's last row has an id and a timestamp.
   */
  lemma CursorLeadsOnExactly(t: Table, f: Filter, cursor: Uuid, k: nat)
    requires Keyed(t) && 0 < k < |Rest(t, f, cursor)|
    ensures var all := Rest(t, f, cursor);
      Rest(t, f, all[k - 1].id) == all[k..] <==> Pointable(all[k - 1])
  {
    var all := Rest(t, f, cursor);
    if Pointable(all[k - 1]) {
      CursorSplits(t, f, cursor, k);
    } else {
      UnpointableStartsOver(t, f, cursor, k);
      assert all[0] in Selected(t, f, cursor) && all[0] in Selected(t, f, NIL);
      assert all[0] in Rest(t, f, NIL);
      assert all[0] !in all[k..] by {
        assert forall j :: k <= j < |all| ==> After(all[j], all[0]);
      }
    }
  }

  /** `n` pages of `size` rows hold `rows` rows. */
  predicate Hold(n: nat, size: nat, rows: nat) {
    n * size >= rows
  }

  lemma HoldStep(n: nat, size: nat, rows: nat)
    requires n >= 1
    ensures size <= rows ==> (Hold(n, size, rows) <==> Hold(n - 1, size, rows - size))
    ensures rows <= size ==> Hold(n, size, rows)
    ensures size < rows && Hold(n, size, rows) ==> n >= 2
  {
    assert n * size == (n - 1) * size + size;
  }

  lemma EnoughHold(size: nat, rows: nat)
    requires size >= 1
    ensures Hold(rows + 1, size, rows)
  {
    assert (rows + 1) * size == rows * (size - 1) + rows + size;
  }

  /** `n` requests to a table that does not change. */
  function Still(t: Table, n: nat): (tables: seq<Table>)
    ensures |tables| == n && forall u :: u in tables ==> u == t
  {
    if n == 0 then [] else [t] + Still(t, n - 1)
  }

  /** The first row that ends a page which is not the last and cannot serve as its cursor. */
  function FirstUnpointable(all: seq<Row>, size: nat): Option<Row>
    requires size >= 1
    decreases |all|
  {
    if |all| <= size then None
    else if !Pointable(all[size - 1]) then Some(all[size - 1])
    else FirstUnpointable(all[size..], size)
  }

  /**
   * On a table that does not change, as long as its pages end in rows with an id and a timestamp,
   * following the cursors gives exactly the matching rows in (time DESC, id DESC) order, and the walk
   * ends as soon as the pages asked for could hold them.
   */
  lemma {:induction false} WalkIsExact(t: Table, n: nat, f: Filter, cursor: Uuid)
    requires Keyed(t) && FirstUnpointable(Rest(t, f, cursor), PageSize(f)).None?
    ensures Ended(Still(t, n), f, cursor) <==> n >= 1 && Hold(n, PageSize(f), |Rest(t, f, cursor)|)
    ensures Ended(Still(t, n), f, cursor) ==> Walk(Still(t, n), f, cursor) == Rest(t, f, cursor)
    decreases n
  {
    if n > 0 {
      HoldStep(n, PageSize(f), |Rest(t, f, cursor)|);
      if PageSize(f) < |Rest(t, f, cursor)| {
        WalkStep(t, n, f, cursor);
        hide *;
        WalkIsExact(t, n - 1, f, Rest(t, f, cursor)[PageSize(f) - 1].id);
      } else {
        hide *;
        WalkStops(t, n, f, cursor);
      }
    }
  }

  lemma WalkStops(t: Table, n: nat, f: Filter, cursor: Uuid)
    requires Keyed(t) && n > 0 && PageSize(f) >= |Rest(t, f, cursor)|
    ensures Ended(Still(t, n), f, cursor) && Walk(Still(t, n), f, cursor) == Rest(t, f, cursor)
  {
    StillTail(t, n);
    hide Rest, Selected, Lists, Still;
  }

  lemma StillTail(t: Table, n: nat)
    requires n > 0
    ensures Still(t, n)[0] == t && Still(t, n)[1..] == Still(t, n - 1)
  {
  }

  /** What one more request means, in the terms of the requests after it. */
  predicate Steps(before: seq<Row>, after: seq<Row>, page: seq<Row>, all: seq<Row>, rest: seq<Row>) {
    && |before| == |page| + |after|
    && (after == rest ==> before == all)
  }

  lemma WalkStep(t: Table, n: nat, f: Filter, cursor: Uuid)
    requires Keyed(t) && n > 0 && PageSize(f) < |Rest(t, f, cursor)| && Pointable(Rest(t, f, cursor)[PageSize(f) - 1])
    ensures var all, next := Rest(t, f, cursor), Rest(t, f, cursor)[PageSize(f) - 1].id;
      && |Rest(t, f, next)| == |all| - PageSize(f)
      && FirstUnpointable(Rest(t, f, next), PageSize(f)) == FirstUnpointable(all, PageSize(f))
      && (Ended(Still(t, n), f, cursor) <==> Ended(Still(t, n - 1), f, next))
      && Steps(Walk(Still(t, n), f, cursor), Walk(Still(t, n - 1), f, next), all[..PageSize(f)], all, Rest(t, f, next))
  {
    var all, size := Rest(t, f, cursor), PageSize(f);
    FirstSkips(all, size);
    hide *;
    CursorSplits(t, f, cursor, size);
    StillGoesOn(t, n, f, cursor);
    StepsOn(all, size, Walk(Still(t, n - 1), f, all[size - 1].id));
  }

  lemma StepsOn(all: seq<Row>, size: nat, after: seq<Row>)
    requires size <= |all|
    ensures Steps(all[..size] + after, after, all[..size], all, all[size..])
  {
    assert all == all[..size] + all[size..];
  }

  lemma StillGoesOn(t: Table, n: nat, f: Filter, cursor: Uuid)
    requires Keyed(t) && n > 0 && PageSize(f) < |Rest(t, f, cursor)| && Pointable(Rest(t, f, cursor)[PageSize(f) - 1])
    ensures var all, size := Rest(t, f, cursor), PageSize(f);
      && Walk(Still(t, n), f, cursor) == all[..size] + Walk(Still(t, n - 1), f, all[size - 1].id)
      && (Ended(Still(t, n), f, cursor) <==> Ended(Still(t, n - 1), f, all[size - 1].id))
  {
    StillTail(t, n);
    PointableHasId(Rest(t, f, cursor)[PageSize(f) - 1]);
    hide Rest, Walk, Ended, Still, Keyed, Pointable, PageSize;
    WalkGoesOn(Still(t, n), f, cursor);
  }

  lemma PointableHasId(r: Row)
    requires Pointable(r)
    ensures r.id != NIL
  {
  }

  lemma FirstSkips(all: seq<Row>, size: nat)
    requires 1 <= size < |all| && Pointable(all[size - 1])
    ensures FirstUnpointable(all, size) == FirstUnpointable(all[size..], size)
  {
  }

  /** One request of a walk whose page is not the last. */
  lemma WalkGoesOn(tables: seq<Table>, f: Filter, cursor: Uuid)
    requires tables != [] && forall u :: u in tables ==> Keyed(u)
    requires PageSize(f) < |Rest(tables[0], f, cursor)| && Rest(tables[0], f, cursor)[PageSize(f) - 1].id != NIL
    ensures var all, size := Rest(tables[0], f, cursor), PageSize(f);
      && Walk(tables, f, cursor) == all[..size] + Walk(tables[1..], f, all[size - 1].id)
      && (Ended(tables, f, cursor) <==> Ended(tables[1..], f, all[size - 1].id))
  {
    hide Rest, Selected, Lists, Descending, Keyed;
  }

  /** A page that ends in a row without an id ends the walk, though it is not the last. */
  lemma WalkBreaksOff(t: Table, n: nat, f: Filter, cursor: Uuid)
    requires Keyed(t) && n > 0 && PageSize(f) < |Rest(t, f, cursor)| && Rest(t, f, cursor)[PageSize(f) - 1].id == NIL
    ensures |Walk(Still(t, n), f, cursor)| == PageSize(f)
  {
    StillTail(t, n);
    hide Rest, Selected, Lists, Still;
  }

  /** From such a row on, a walk without a timestamp never ends and one without an id ends short. */
  lemma {:induction false} WalkFails(t: Table, n: nat, f: Filter, cursor: Uuid)
    requires Keyed(t) && FirstUnpointable(Rest(t, f, NIL), PageSize(f)).Some?
    requires FirstUnpointable(Rest(t, f, cursor), PageSize(f)) == FirstUnpointable(Rest(t, f, NIL), PageSize(f))
    ensures FirstUnpointable(Rest(t, f, NIL), PageSize(f)).value.id != NIL ==> !Ended(Still(t, n), f, cursor)
    ensures Ended(Still(t, n), f, cursor) ==> |Walk(Still(t, n), f, cursor)| < |Rest(t, f, cursor)|
    decreases n
  {
    if n > 0 {
      var all, size := Rest(t, f, cursor), PageSize(f);
      var last := all[size - 1];
      if Pointable(last) {
        WalkStep(t, n, f, cursor);
        hide *;
        WalkFails(t, n - 1, f, last.id);
      } else if last.id == NIL {
        WalkBreaksOff(t, n, f, cursor);
        hide *;
      } else {
        UnpointableStartsOver(t, f, cursor, size);
        StillTail(t, n);
        WalkGoesOn(Still(t, n), f, cursor);
        hide *;
        WalkFails(t, n - 1, f, last.id);
      }
    }
  }

  /**
   * On any table that does not change, following the cursors from the first page ends with all the
   * matching rows in order if and only if each page that is not the last ends in a row with an id and
   * a timestamp.
   */
  lemma WalkIsCompleteExactly(t: Table, f: Filter)
    requires Keyed(t)
    ensures (exists n :: Ended(Still(t, n), f, NIL) && Walk(Still(t, n), f, NIL) == Rest(t, f, NIL))
      <==> FirstUnpointable(Rest(t, f, NIL), PageSize(f)).None?
  {
    var all, size := Rest(t, f, NIL), PageSize(f);
    if FirstUnpointable(all, size).None? {
      EnoughHold(size, |all|);
      WalkIsExact(t, |all| + 1, f, NIL);
    } else {
      forall n
        ensures !(Ended(Still(t, n), f, NIL) && Walk(Still(t, n), f, NIL) == all)
      {
        WalkFails(t, n, f, NIL);
      }
    }
    hide Rest, Walk, Ended, Still, FirstUnpointable, Keyed;
  }

  /** A table of rows with ids and timestamps has no such page. */
  lemma {:induction false} StampedIsPointable(all: seq<Row>, size: nat)
    requires size >= 1 && forall r :: r in all ==> Pointable(r)
    ensures FirstUnpointable(all, size).None?
    decreases |all|
  {
    if |all| > size {
      StampedIsPointable(all[size..], size);
    }
  }

  lemma StampedRests(t: Table, f: Filter, cursor: Uuid)
    requires Stamped(t)
    ensures forall r :: r in Rest(t, f, cursor) ==> Pointable(r)
    ensures FirstUnpointable(Rest(t, f, cursor), PageSize(f)).None?
  {
    forall r | r in Rest(t, f, cursor)
      ensures Pointable(r)
    {
      assert r in Selected(t, f, cursor);
    }
    StampedIsPointable(Rest(t, f, cursor), PageSize(f));
  }

  lemma StampedSplits(t: Table, f: Filter, cursor: Uuid, k: nat)
    requires Stamped(t) && 0 < k < |Rest(t, f, cursor)|
    ensures var all := Rest(t, f, cursor);
      && all[k - 1].id != NIL && Cuts(t, all[k - 1].id) && t[all[k - 1].id] == all[k - 1]
      && Rest(t, f, all[k - 1].id) == all[k..]
  {
    StampedRests(t, f, cursor);
    hide Rest, Stamped, FirstUnpointable;
    assert Rest(t, f, cursor)[k - 1] in Rest(t, f, cursor);
    CursorSplits(t, f, cursor, k);
  }

  lemma GrowingTail(tables: seq<Table>)
    requires Growing(tables) && tables != []
    ensures Growing(tables[1..]) && Stamped(tables[0])
    ensures tables[1..] != [] ==> Grows(tables[0], tables[1]) && tables[1..][0] == tables[1]
  {
    assert tables[0] in tables;
    forall i, j | 0 <= i < j < |tables[1..]|
      ensures Grows(tables[1..][i], tables[1..][j])
    {
      assert Grows(tables[i + 1], tables[j + 1]);
    }
  }

  /** Every row of the walk lies below the cursor and is still in the last snapshot. */
  lemma {:induction false} WalkDescends(tables: seq<Table>, f: Filter, cursor: Uuid)
    requires Growing(tables) && (tables != [] ==> cursor == NIL || Cuts(tables[0], cursor))
    ensures Descending(Walk(tables, f, cursor))
    ensures forall r :: r in Walk(tables, f, cursor) ==>
      PassesCursor(tables[0], cursor, r) && r.id in tables[|tables| - 1] && tables[|tables| - 1][r.id].time == r.time
    decreases |tables|
  {
    if tables != [] {
      GrowingTail(tables);
      var t, all, size := tables[0], Rest(tables[0], f, cursor), PageSize(f);
      var next, page := NextCursor(all, size), Page(all, size);
      forall r | r in page
        ensures PassesCursor(t, cursor, r) && r.id in tables[|tables| - 1] && tables[|tables| - 1][r.id].time == r.time
      {
        assert r in all && r in Selected(t, f, cursor);
        assert |tables| > 1 ==> Grows(t, tables[|tables| - 1]);
      }
      if next != NIL && |tables| > 1 {
        StampedSplits(t, f, cursor, size);
        var rec := Walk(tables[1..], f, next);
        WalkDescends(tables[1..], f, next);
        assert tables[1..][|tables[1..]| - 1] == tables[|tables| - 1];
        WalkJoins(t, tables[1], f, cursor, rec);
      }
    }
  }

  /** The page before the cursor and the rows after it form one descending sequence. */
  lemma WalkJoins(t: Table, t': Table, f: Filter, cursor: Uuid, rec: seq<Row>)
    requires Stamped(t) && Stamped(t') && Grows(t, t') && PageSize(f) < |Rest(t, f, cursor)|
    requires var next := Rest(t, f, cursor)[PageSize(f) - 1].id;
      Descending(rec) && forall r :: r in rec ==> PassesCursor(t', next, r)
    ensures Descending(Page(Rest(t, f, cursor), PageSize(f)) + rec)
    ensures forall r :: r in rec ==> PassesCursor(t, cursor, r)
  {
    var all, size := Rest(t, f, cursor), PageSize(f);
    var last := all[size - 1];
    StampedSplits(t, f, cursor, size);
    assert last in Selected(t, f, cursor);
    var xs := all[..size] + rec;
    forall r | r in rec
      ensures After(r, last) && PassesCursor(t, cursor, r)
    {
      assert PassesCursor(t', last.id, r) && Cuts(t', last.id);
    }
    forall i, j | 0 <= i < j < |xs|
      ensures After(xs[j], xs[i])
    {
      if i < size <= j {
        assert xs[j] == rec[j - size] && xs[j] in rec;
        assert i == size - 1 || After(last, all[i]);
      }
    }
  }

  /** The row `id` matches the filter in every snapshot. */
  ghost predicate Stays(tables: seq<Table>, f: Filter, id: Uuid) {
    forall k :: 0 <= k < |tables| ==> id in tables[k] && Matches(f, tables[k][id])
  }

  lemma PageHolds(all: seq<Row>, size: nat, j: nat)
    requires j < size && j < |all|
    ensures all[j] in Page(all, size)
  {
    assert size < |all| ==> all[..size][j] == all[j];
  }

  /** A row that a page does not show, though it is selected, lies below the page's cursor. */
  lemma NotYetMet(t: Table, f: Filter, cursor: Uuid, id: Uuid)
    requires Stamped(t) && id in t && Matches(f, t[id]) && PassesCursor(t, cursor, t[id])
    requires var all := Rest(t, f, cursor); t[id] !in Page(all, PageSize(f))
    ensures var all := Rest(t, f, cursor);
      PageSize(f) < |all| && After(t[id], all[PageSize(f) - 1])
  {
    var all, size := Rest(t, f, cursor), PageSize(f);
    assert t[id] in Selected(t, f, cursor);
    forall j: nat | j < |all| && j < size
      ensures all[j] in Page(all, size)
    {
      PageHolds(all, size, j);
    }
    var j: nat :| j < |all| && all[j] == t[id];
    assert j >= size;
  }

  /** The row stays below the page's last row in the next snapshot. */
  lemma StaysTail(tables: seq<Table>, f: Filter, id: Uuid, last: Row)
    requires Growing(tables) && Stays(tables, f, id) && |tables| > 1
    requires Cuts(tables[0], last.id) && tables[0][last.id] == last && After(tables[0][id], last)
    ensures Growing(tables[1..]) && Stays(tables[1..], f, id) && Cuts(tables[1..][0], last.id)
    ensures PassesCursor(tables[1..][0], last.id, tables[1..][0][id])
  {
    GrowingTail(tables);
    assert Grows(tables[0], tables[1]);
    assert Stamped(tables[0]) && Stamped(tables[1]) by {
      assert tables[0] in tables && tables[1] in tables;
    }
    forall k | 0 <= k < |tables[1..]|
      ensures id in tables[1..][k] && Matches(f, tables[1..][k][id])
    {
      assert tables[1..][k] == tables[k + 1];
    }
    assert Stays(tables[1..], f, id);
  }

  /** A row that is there from the first request on and keeps matching is met if the walk ends. */
  lemma {:induction false} WalkMeets(tables: seq<Table>, f: Filter, cursor: Uuid, id: Uuid)
    requires Growing(tables) && Ended(tables, f, cursor) && (cursor == NIL || Cuts(tables[0], cursor))
    requires Stays(tables, f, id) && PassesCursor(tables[0], cursor, tables[0][id])
    ensures exists r :: r in Walk(tables, f, cursor) && r.id == id
    decreases |tables|
  {
    GrowingTail(tables);
    var t, all, size := tables[0], Rest(tables[0], f, cursor), PageSize(f);
    var next, page := NextCursor(all, size), Page(all, size);
    if t[id] in page {
      assert t[id] in Walk(tables, f, cursor);
    } else {
      NotYetMet(t, f, cursor, id);
      StampedSplits(t, f, cursor, size);
      StaysTail(tables, f, id, all[size - 1]);
      WalkGoesOn(tables, f, cursor) by {
        assert tables[0] in tables;
      }
      hide Rest, Selected, Lists, Descending, Growing, Stays, Grows, Stamped, Keyed, Cuts, PassesCursor, Walk, Ended;
      WalkMeets(tables[1..], f, next, id);
      var r :| r in Walk(tables[1..], f, next) && r.id == id;
      assert r in Walk(tables, f, cursor);
    }
  }

  /**
   * While rows are added between the requests: no row comes twice, and every row that was there
   * at the first request and matched the filter throughout comes exactly once.
   */
  lemma WalkUnderInserts(tables: seq<Table>, f: Filter)
    requires Growing(tables) && Ended(tables, f, NIL)
    ensures DistinctIds(Walk(tables, f, NIL)) && Descending(Walk(tables, f, NIL))
    ensures forall id :: Stays(tables, f, id) ==> exists r :: r in Walk(tables, f, NIL) && r.id == id
  {
    var xs, last := Walk(tables, f, NIL), tables[|tables| - 1];
    WalkDescends(tables, f, NIL);
    forall i, j | 0 <= i < j < |xs|
      ensures xs[i].id != xs[j].id
    {
      assert xs[i] in xs && xs[j] in xs && After(xs[j], xs[i]);
    }
    forall id | Stays(tables, f, id)
      ensures exists r :: r in xs && r.id == id
    {
      WalkMeets(tables, f, NIL, id);
    }
  }

  /** In particular a first page that ends in such a row is served for ever. */
  lemma UnpointableRepeatsThePage(t: Table, f: Filter)
    requires Keyed(t) && PageSize(f) < |Rest(t, f, NIL)| && !Pointable(Rest(t, f, NIL)[PageSize(f) - 1])
    ensures var next := NextCursor(Rest(t, f, NIL), PageSize(f));
      Rest(t, f, next) == Rest(t, f, NIL) && NextCursor(Rest(t, f, next), PageSize(f)) == next
  {
    UnpointableStartsOver(t, f, NIL, PageSize(f));
  }
}
