/**
 * The route store (`HubRouteRepository`): routes in insertion order, the i-th holding the
 * identity-column id i + 1, with its writes and its query filters.
 */
module RouteStore {
  import opened Wrappers
  import opened Common
  import opened Routes

  /** The store's invariant: the row at position i carries the id i + 1. */
  predicate WellFormed(rows: seq<RouteRow>) {
    forall i :: 0 <= i < |rows| ==> rows[i].id == Some(i + 1)
  }

  /** `id` names a stored row. */
  predicate Stored(rows: seq<RouteRow>, id: Option<RouteId>) {
    id.Some? && 1 <= id.value <= |rows|
  }

  /** The store after one write and the route as saved. */
  datatype SavedOne = SavedOne(rows: seq<RouteRow>, route: RouteRow)

  /** The store after a batch write and the routes as saved, in batch order. */
  datatype Saved = Saved(rows: seq<RouteRow>, saved: seq<RouteRow>)

  /**
   * `save`: a route whose id is stored replaces that row; any other route is inserted with the
   * next identity value.
   */
  function SaveOne(rows: seq<RouteRow>, r: RouteRow): (s: SavedOne)
    requires WellFormed(rows)
    ensures WellFormed(s.rows)
    ensures s.route == r.(id := s.route.id) && Stored(s.rows, s.route.id)
    ensures s.rows[s.route.id.value - 1] == s.route
    ensures Stored(rows, r.id) ==> s.route == r && |s.rows| == |rows|
    ensures !Stored(rows, r.id) ==> s.route.id == Some(|rows| + 1) && s.rows == rows + [s.route]
    ensures forall k :: 0 <= k < |rows| && k + 1 != s.route.id.value ==> s.rows[k] == rows[k]
  {
    if Stored(rows, r.id) then SavedOne(rows[r.id.value - 1 := r], r)
    else
      var inserted := r.(id := Some(|rows| + 1));
      SavedOne(rows + [inserted], inserted)
  }

  /** `findById`. */
  function FindById(rows: seq<RouteRow>, id: RouteId): (r: Option<RouteRow>)
    requires WellFormed(rows)
    ensures r.Some? <==> exists i :: 0 <= i < |rows| && rows[i].id == Some(id)
    ensures r.Some? ==> r.value.id == Some(id) && r.value in rows
  {
    if 1 <= id <= |rows| then Some(rows[id - 1]) else None
  }

  /** After `save` the saved route is found under its id, and every other id finds what it found before. */
  lemma SaveThenFindById(rows: seq<RouteRow>, r: RouteRow, other: RouteId)
    requires WellFormed(rows)
    ensures FindById(SaveOne(rows, r).rows, SaveOne(rows, r).route.id.value) == Some(SaveOne(rows, r).route)
    ensures Some(other) != SaveOne(rows, r).route.id ==>
      FindById(SaveOne(rows, r).rows, other) == FindById(rows, other)
  {
  }

  /** `saveAll`: each route saved in turn, in batch order. */
  function SaveBatch(rows: seq<RouteRow>, batch: seq<RouteRow>): (s: Saved)
    requires WellFormed(rows)
    ensures WellFormed(s.rows) && |s.saved| == |batch| && |rows| <= |s.rows|
    ensures forall i :: 0 <= i < |batch| ==>
      s.saved[i] == batch[i].(id := s.saved[i].id) && Stored(s.rows, s.saved[i].id)
    decreases |batch|
  {
    if |batch| == 0 then Saved(rows, [])
    else
      var before := SaveBatch(rows, batch[..|batch| - 1]);
      var last := SaveOne(before.rows, batch[|batch| - 1]);
      Saved(last.rows, before.saved + [last.route])
  }

  /** No route saved after position `i` of the batch went to the same id. */
  predicate LastWrite(saved: seq<RouteRow>, i: int)
    requires 0 <= i < |saved|
  {
    forall j :: i < j < |saved| ==> saved[j].id != saved[i].id
  }

  /** No route of the batch was saved to the row at position `k`. */
  predicate Untouched(saved: seq<RouteRow>, k: int) {
    forall i :: 0 <= i < |saved| ==> saved[i].id != Some(k + 1)
  }

  /** After `saveAll` a saved route that no later route of the batch overwrote is found under its id. */
  lemma {:induction false} SaveBatchThenFind(rows: seq<RouteRow>, batch: seq<RouteRow>, i: int)
    requires WellFormed(rows)
    requires 0 <= i < |batch| && LastWrite(SaveBatch(rows, batch).saved, i)
    ensures SaveBatch(rows, batch).rows[SaveBatch(rows, batch).saved[i].id.value - 1] == SaveBatch(rows, batch).saved[i]
    decreases |batch|
  {
    var init := batch[..|batch| - 1];
    var before := SaveBatch(rows, init);
    var last := SaveOne(before.rows, batch[|batch| - 1]);
    var s := SaveBatch(rows, batch);
    assert s.rows == last.rows && s.saved == before.saved + [last.route];
    if i < |init| {
      assert s.saved[i] == before.saved[i];
      assert s.saved[|batch| - 1] == last.route;
      forall j | i < j < |init|
        ensures before.saved[j].id != before.saved[i].id
      {
        assert s.saved[j] == before.saved[j];
      }
      SaveBatchThenFind(rows, init, i);
    }
  }

  /** After `saveAll` a stored row that no route of the batch was saved to is unchanged. */
  lemma {:induction false} SaveBatchKeepsUntouched(rows: seq<RouteRow>, batch: seq<RouteRow>, k: int)
    requires WellFormed(rows)
    requires 0 <= k < |rows| && Untouched(SaveBatch(rows, batch).saved, k)
    ensures SaveBatch(rows, batch).rows[k] == rows[k]
    decreases |batch|
  {
    if |batch| > 0 {
      var init := batch[..|batch| - 1];
      var before := SaveBatch(rows, init);
      var last := SaveOne(before.rows, batch[|batch| - 1]);
      var s := SaveBatch(rows, batch);
      assert s.rows == last.rows && s.saved == before.saved + [last.route];
      forall i | 0 <= i < |init|
        ensures before.saved[i].id != Some(k + 1)
      {
        assert s.saved[i] == before.saved[i];
      }
      assert s.saved[|batch| - 1] == last.route;
      SaveBatchKeepsUntouched(rows, init, k);
    }
  }

  /** A batch of routes without ids is appended, the routes taking consecutive new ids. */
  lemma {:induction false} SaveBatchAppendsNewRoutes(rows: seq<RouteRow>, batch: seq<RouteRow>)
    requires WellFormed(rows)
    requires forall i :: 0 <= i < |batch| ==> batch[i].id.None?
    ensures SaveBatch(rows, batch).saved == seq(|batch|, i requires 0 <= i < |batch| => batch[i].(id := Some(|rows| + i + 1)))
    ensures SaveBatch(rows, batch).rows == rows + SaveBatch(rows, batch).saved
    decreases |batch|
  {
    if |batch| > 0 {
      var init := batch[..|batch| - 1];
      SaveBatchAppendsNewRoutes(rows, init);
      var before := SaveBatch(rows, init);
      assert |before.rows| == |rows| + |init|;
    }
  }

  /** The routes of a list that satisfy `p`, in list order. */
  function Filter(rows: seq<RouteRow>, p: RouteRow -> bool): (r: seq<RouteRow>)
    ensures forall x :: x in r <==> x in rows && p(x)
    ensures |r| <= |rows|
    ensures (forall i :: 0 <= i < |rows| ==> !p(rows[i])) ==> r == []
  {
    if |rows| == 0 then []
    else
      var init := Filter(rows[..|rows| - 1], p);
      assert forall x :: x in rows <==> x in rows[..|rows| - 1] || x == rows[|rows| - 1];
      if p(rows[|rows| - 1]) then init + [rows[|rows| - 1]] else init
  }

  /** `findAll`: the stored routes, deleted ones included. */
  function FindAll(rows: seq<RouteRow>): (r: seq<RouteRow>)
    ensures |r| == |rows| && forall i :: 0 <= i < |rows| ==> r[i] == rows[i]
  {
    rows
  }

  /** An active route touching hub `h`. */
  predicate ActiveTouching(r: RouteRow, h: HubId) {
    r.IsActive() && r.Touches(h)
  }

  /** The condition of `findAllByHubId`, as a filter. */
  function TouchingHub(h: HubId): RouteRow -> bool {
    (x: RouteRow) => ActiveTouching(x, h)
  }

  /** `findAllByHubId`: the active routes that start or end at `h`. */
  function FindAllByHubId(rows: seq<RouteRow>, h: HubId): (r: seq<RouteRow>)
    ensures forall x :: x in r <==> x in rows && x.IsActive() && (x.source == h || x.target == h)
  {
    Filter(rows, TouchingHub(h))
  }

  /** `findAllByDeletedAtIsNull`: the active routes. */
  function FindAllByDeletedAtIsNull(rows: seq<RouteRow>): (r: seq<RouteRow>)
    ensures forall x :: x in r <==> x in rows && x.deletedAt.None?
  {
    Filter(rows, (x: RouteRow) => x.IsActive())
  }

  /** Deleted routes are listed by `findAll` and by neither active query. */
  lemma DeletedRoutesOnlyInFindAll(rows: seq<RouteRow>, x: RouteRow, h: HubId)
    requires x in rows && !x.IsActive()
    ensures x in FindAll(rows)
    ensures x !in FindAllByDeletedAtIsNull(rows) && x !in FindAllByHubId(rows, h)
  {
  }

  /** The store of routes. */
  class HubRouteRepository {
    var rows: seq<RouteRow>

    ghost predicate Valid()
      reads this
    {
      WellFormed(rows)
    }

    constructor ()
      ensures Valid() && rows == []
    {
      rows := [];
    }

    /** `save`. */
    method Save(r: RouteRow) returns (saved: RouteRow)
      requires Valid()
      modifies this
      ensures Valid()
      ensures SavedOne(rows, saved) == SaveOne(old(rows), r)
    {
      var s := SaveOne(rows, r);
      rows, saved := s.rows, s.route;
    }

    /** `saveAll`: `save` applied to each route in turn. */
    method SaveAll(batch: seq<RouteRow>) returns (saved: seq<RouteRow>)
      requires Valid()
      modifies this
      ensures Valid()
      ensures Saved(rows, saved) == SaveBatch(old(rows), batch)
    {
      saved := [];
      for i := 0 to |batch|
        invariant WellFormed(rows)
        invariant Saved(rows, saved) == SaveBatch(old(rows), batch[..i])
      {
        assert batch[..i + 1][..i] == batch[..i];
        var s := Save(batch[i]);
        saved := saved + [s];
      }
      assert batch[..|batch|] == batch;
    }
  }
}
