/**
 * The deliverable version store (src/internal/store/memory.go): Insert keeps an index of row ids
 * per deliverable beside the table, and ListVersions reads through it.
 */
module VersionList {
  import opened Specs
  import opened Deliverables

  /** A stored row and its own id. */
  datatype Stored = Stored(uid: Uuid, row: VersionRow)

  type Table = map<(Uuid, int), Stored>

  predicate IsRowOf(rows: Table, d: Uuid, r: Stored) {
    r.row.deliverableId == d && (d, r.row.version) in rows && rows[(d, r.row.version)] == r
  }

  /** Newest first, no two of one version. */
  predicate Descending(xs: seq<Stored>) {
    forall i, j :: 0 <= i < j < |xs| ==> xs[i].row.version > xs[j].row.version
  }

  function Insert(xs: seq<Stored>, r: Stored): seq<Stored> {
    if xs == [] || r.row.version > xs[0].row.version then [r] + xs else [xs[0]] + Insert(xs[1..], r)
  }

  /** The order sort.Slice leaves the rows in. */
  function Sorted(xs: seq<Stored>): seq<Stored> {
    if xs == [] then [] else Insert(Sorted(xs[1..]), xs[0])
  }

  ghost predicate OwnVersions(xs: seq<Stored>) {
    forall i, j :: 0 <= i < j < |xs| ==> xs[i].row.version != xs[j].row.version
  }

  lemma {:induction false} InsertSorts(xs: seq<Stored>, r: Stored)
    requires Descending(xs) && forall x :: x in xs ==> x.row.version != r.row.version
    ensures Descending(Insert(xs, r)) && forall x :: x in Insert(xs, r) <==> x in xs || x == r
  {
    if xs != [] && r.row.version <= xs[0].row.version {
      InsertSorts(xs[1..], r);
      var ys := Insert(xs[1..], r);
      assert forall x :: x in xs <==> x == xs[0] || x in xs[1..];
      forall k | 0 <= k < |ys|
        ensures xs[0].row.version > ys[k].row.version
      {
        assert ys[k] in ys;
      }
    }
  }

  lemma {:induction false} SortedSorts(xs: seq<Stored>)
    requires OwnVersions(xs)
    ensures Descending(Sorted(xs)) && forall x :: x in Sorted(xs) <==> x in xs
  {
    if xs != [] {
      SortedSorts(xs[1..]);
      forall x | x in Sorted(xs[1..])
        ensures x.row.version != xs[0].row.version
      {
        var k :| 0 <= k < |xs[1..]| && xs[1..][k] == x;
        assert xs[k + 1] == x;
      }
      InsertSorts(Sorted(xs[1..]), xs[0]);
      assert forall x :: x in xs <==> x == xs[0] || x in xs[1..];
    }
  }

  class VersionStore {
    var rows: Table
    var index: map<Uuid, seq<Uuid>>

    function Ids(d: Uuid): seq<Uuid>
      reads this
    {
      if d in index then index[d] else []
    }

    ghost predicate Keyed()
      reads this
    {
      && (forall key :: key in rows ==> rows[key].row.deliverableId == key.0 && rows[key].row.version == key.1)
      && (forall a, b :: a in rows && b in rows && rows[a].uid == rows[b].uid ==> a == b)
    }

    /** The index of a deliverable lists the ids of its rows, each once. */
    ghost predicate Indexed(d: Uuid)
      reads this
    {
      && (forall k :: 0 <= k < |Ids(d)| ==> exists key :: key in rows && key.0 == d && rows[key].uid == Ids(d)[k])
      && (forall key :: key in rows && key.0 == d ==> rows[key].uid in Ids(d))
      && (forall j, k :: 0 <= j < k < |Ids(d)| ==> Ids(d)[j] != Ids(d)[k])
    }

    ghost predicate Valid()
      reads this
    {
      Keyed() && forall d :: Indexed(d)
    }

    constructor ()
      ensures Valid() && rows == map[]
    {
      rows, index := map[], map[];
      new;
      assert forall d :: Ids(d) == [];
      assert forall d :: Indexed(d);
    }

    method InsertVersion(v: VersionRow, uid: Uuid) returns (ok: bool)
      requires Valid() && forall key :: key in rows ==> rows[key].uid != uid
      modifies this
      ensures Valid()
      ensures ok <==> (v.deliverableId, v.version) !in old(rows)
      ensures rows == if ok then old(rows)[(v.deliverableId, v.version) := Stored(uid, v)] else old(rows)
    {
      var key := (v.deliverableId, v.version);
      if key in rows {
        return false;
      }
      ghost var before := rows;
      var ids := Ids(v.deliverableId);
      assert Indexed(v.deliverableId);
      assert forall k :: 0 <= k < |ids| ==> ids[k] != uid;
      rows := rows[key := Stored(uid, v)];
      index := index[v.deliverableId := ids + [uid]];
      forall d
        ensures Indexed(d)
      {
        assert old(Indexed(d));
        assert Ids(d) == if d == v.deliverableId then ids + [uid] else old(Ids(d));
        forall k | 0 <= k < |Ids(d)|
          ensures exists a :: a in rows && a.0 == d && rows[a].uid == Ids(d)[k]
        {
          if k == |ids| && d == v.deliverableId {
            assert key in rows && key.0 == d && rows[key].uid == Ids(d)[k];
          } else {
            assert Ids(d)[k] == old(Ids(d))[k];
            var a :| a in before && a.0 == d && before[a].uid == Ids(d)[k];
            assert a in rows && rows[a] == before[a];
          }
        }
      }
      return true;
    }

    /** The inner loop: the row with this id, found by scanning the table. */
    method FindRow(uid: Uuid) returns (r: Stored)
      requires exists key :: key in rows && rows[key].uid == uid
      ensures r.uid == uid && exists key :: key in rows && rows[key] == r
    {
      var todo := rows.Keys;
      while todo != {}
        invariant todo <= rows.Keys && exists key :: key in todo && rows[key].uid == uid
        decreases todo
      {
        var key :| key in todo;
        if rows[key].uid == uid {
          return rows[key];
        }
        todo := todo - {key};
      }
    }

    /** Exactly the deliverable's rows, newest version first. */
    method ListVersions(d: Uuid) returns (out: seq<Stored>)
      requires Valid()
      ensures Descending(out) && forall r :: r in out <==> IsRowOf(rows, d, r)
    {
      var ids := Ids(d);
      var found: seq<Stored> := [];
      assert Indexed(d);
      for k := 0 to |ids|
        invariant |found| == k
        invariant forall j :: 0 <= j < k ==> found[j].uid == ids[j] && IsRowOf(rows, d, found[j])
      {
        var key :| key in rows && key.0 == d && rows[key].uid == ids[k];
        var r := FindRow(ids[k]);
        assert r == rows[key];
        found := found + [r];
      }
      assert OwnVersions(found);
      forall r | IsRowOf(rows, d, r)
        ensures r in found
      {
        assert rows[(d, r.row.version)].uid in ids;
        var j :| 0 <= j < |ids| && ids[j] == r.uid;
        assert found[j].uid == r.uid;
      }
      SortedSorts(found);
      out := Sorted(found);
    }
  }

  ghost predicate HasVersion(out: seq<Stored>, v: int) {
    exists r :: r in out && r.row.version == v
  }

  lemma {:induction false} CountsDown(out: seq<Stored>, n: nat)
    requires Descending(out) && forall r :: r in out ==> 1 <= r.row.version <= n
    requires forall v :: 1 <= v <= n ==> HasVersion(out, v)
    ensures |out| == n && forall i :: 0 <= i < n ==> out[i].row.version == n - i
    decreases n
  {
    assert forall i :: 0 <= i < |out| ==> out[i] in out;
    assert |out| > 0 ==> 1 <= out[0].row.version <= n;
    if n > 0 {
      assert HasVersion(out, n);
      var top :| top in out && top.row.version == n;
      assert out[0].row.version == n;
      var rest := out[1..];
      forall v | 1 <= v <= n - 1
        ensures HasVersion(rest, v)
      {
        assert HasVersion(out, v);
        var r :| r in out && r.row.version == v;
        assert r in rest;
      }
      forall r | r in rest
        ensures 1 <= r.row.version <= n - 1
      {
        var k :| 0 <= k < |rest| && rest[k] == r;
        assert out[k + 1] == r;
      }
      CountsDown(rest, n - 1);
      assert |out| == n;
      forall i | 0 <= i < n
        ensures out[i].row.version == n - i
      {
        assert i > 0 ==> out[i] == rest[i - 1];
      }
    }
  }

  /**
   * When a deliverable has exactly the versions 1 to n, as DeliverableHistory shows between
   * requests, what ListVersions returns is n, n - 1, and so on down to 1.
   */
  lemma ListingCountsDown(rows: Table, d: Uuid, n: nat, out: seq<Stored>)
    requires Descending(out) && forall r :: r in out <==> IsRowOf(rows, d, r)
    requires forall key :: key in rows ==> rows[key].row.deliverableId == key.0 && rows[key].row.version == key.1
    requires forall v :: (d, v) in rows <==> 1 <= v <= n
    ensures |out| == n && forall i :: 0 <= i < n ==> out[i].row.version == n - i
  {
    forall v | 1 <= v <= n
      ensures HasVersion(out, v)
    {
      assert (d, v) in rows && IsRowOf(rows, d, rows[(d, v)]);
      assert rows[(d, v)] in out;
    }
    CountsDown(out, n);
  }
}
