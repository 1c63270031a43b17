/**
 * The route engine (`HubRouteService`): the bidirectional routes between a new hub and every
 * other active hub, the soft deletion of a hub's routes, and the route queries.
 */
module RouteEngine {
  import opened Wrappers
  import opened Common
  import opened HubAggregate
  import opened HubStore
  import opened HubQueries
  import opened Routes
  import opened RouteStore
  import opened HubEvents
  import opened Sinks

  /** `RouteResponse`; a `None` field is a Java `null`. */
  datatype RouteResponse = RouteResponse(distanceKm: Option<JDouble>, durationMinutes: Option<Int32>)

  /** The route calculator (`RouteCalculator.getRoute`); `None` is a call that threw. */
  type Calculator = (Coordinate, Coordinate) -> Option<RouteResponse>

  /** The route from one hub to another, with the calculator's answer for their coordinates. */
  function RouteBetween(from: HubRow, to: HubRow, getRoute: Calculator): (r: Result<RouteRow, HubError>)
    ensures getRoute(from.coordinate, to.coordinate).None? ==> r == Failure(RouteComputationFailed)
    ensures r.Success? <==>
      && getRoute(from.coordinate, to.coordinate).Some?
      && getRoute(from.coordinate, to.coordinate).value.distanceKm.Some?
      && getRoute(from.coordinate, to.coordinate).value.durationMinutes.Some?
    ensures r.Success? ==>
      && r.value.source == from.id && r.value.target == to.id
      && Some(r.value.distanceKm) == getRoute(from.coordinate, to.coordinate).value.distanceKm
      && Some(r.value.durationMinutes) == getRoute(from.coordinate, to.coordinate).value.durationMinutes
      && r.value.id.None? && r.value.IsActive()
  {
    match getRoute(from.coordinate, to.coordinate)
    case None => Failure(RouteComputationFailed)
    case Some(resp) => Create(Some(from.id), Some(to.id), resp.distanceKm, resp.durationMinutes)
  }

  /** `createBidirectionalRoutes`: `hub1`→`hub2`, then `hub2`→`hub1`; the first failure is the one thrown. */
  function BidirectionalRoutes(hub1: HubRow, hub2: HubRow, getRoute: Calculator): (r: Result<seq<RouteRow>, HubError>)
    ensures r.Success? <==> RouteBetween(hub1, hub2, getRoute).Success? && RouteBetween(hub2, hub1, getRoute).Success?
    ensures r.Success? ==> r.value == [RouteBetween(hub1, hub2, getRoute).value, RouteBetween(hub2, hub1, getRoute).value]
    ensures RouteBetween(hub1, hub2, getRoute).Failure? ==> r == Failure(RouteBetween(hub1, hub2, getRoute).error)
  {
    match RouteBetween(hub1, hub2, getRoute)
    case Failure(e) => Failure(e)
    case Success(route1) =>
      match RouteBetween(hub2, hub1, getRoute)
      case Failure(e) => Failure(e)
      case Success(route2) => Success([route1, route2])
  }

  /** The peer set of `calculateRoutesForNewHub`: the listed hubs other than the new one, in list order. */
  function Peers(hubs: seq<HubRow>, newId: HubId): (p: seq<HubRow>)
    ensures forall h :: h in p <==> h in hubs && h.id != newId
  {
    if |hubs| == 0 then []
    else
      var init := Peers(hubs[..|hubs| - 1], newId);
      assert forall h :: h in hubs <==> h in hubs[..|hubs| - 1] || h == hubs[|hubs| - 1];
      if hubs[|hubs| - 1].id != newId then init + [hubs[|hubs| - 1]] else init
  }

  /** The `flatMap` of `createBidirectionalRoutes` over the peers, in peer order. */
  function RoutesFor(peers: seq<HubRow>, newHub: HubRow, getRoute: Calculator): Result<seq<RouteRow>, HubError> {
    if |peers| == 0 then Success([])
    else
      match RoutesFor(peers[..|peers| - 1], newHub, getRoute)
      case Failure(e) => Failure(e)
      case Success(init) =>
        match BidirectionalRoutes(peers[|peers| - 1], newHub, getRoute)
        case Failure(e) => Failure(e)
        case Success(pair) => Success(init + pair)
  }

  /**
   * The batch succeeds exactly when every calculator call does; it then holds two routes per
   * peer: peer→new at 2i and new→peer at 2i + 1.
   */
  lemma {:induction false} RoutesForShape(peers: seq<HubRow>, newHub: HubRow, getRoute: Calculator)
    ensures RoutesFor(peers, newHub, getRoute).Success? <==>
      forall i :: 0 <= i < |peers| ==> BidirectionalRoutes(peers[i], newHub, getRoute).Success?
    ensures RoutesFor(peers, newHub, getRoute).Success? ==>
      && |RoutesFor(peers, newHub, getRoute).value| == 2 * |peers|
      && forall i :: 0 <= i < |peers| ==>
        && RoutesFor(peers, newHub, getRoute).value[2 * i] == RouteBetween(peers[i], newHub, getRoute).value
        && RoutesFor(peers, newHub, getRoute).value[2 * i + 1] == RouteBetween(newHub, peers[i], getRoute).value
  {
    if |peers| > 0 {
      var init := peers[..|peers| - 1];
      RoutesForShape(init, newHub, getRoute);
      assert forall i :: 0 <= i < |init| ==> init[i] == peers[i];
    }
  }

  /**
   * When the new hub is not among the peers, every route of a successful batch starts or ends at
   * the new hub, never at both, and is new and active.
   */
  lemma RoutesTouchNewHubOnly(peers: seq<HubRow>, newHub: HubRow, getRoute: Calculator)
    requires forall h :: h in peers ==> h.id != newHub.id
    ensures RoutesFor(peers, newHub, getRoute).Success? ==>
      forall r :: r in RoutesFor(peers, newHub, getRoute).value ==>
        && r.Touches(newHub.id) && r.source != r.target && r.id.None? && r.IsActive()
  {
    RoutesForShape(peers, newHub, getRoute);
    if RoutesFor(peers, newHub, getRoute).Success? {
      var routes := RoutesFor(peers, newHub, getRoute).value;
      forall r | r in routes
        ensures r.Touches(newHub.id) && r.source != r.target && r.id.None? && r.IsActive()
      {
        var k :| 0 <= k < |routes| && routes[k] == r;
        var i := k / 2;
        assert k == 2 * i || k == 2 * i + 1;
        assert peers[i] in peers;
      }
    }
  }

  /** Listing the peers drops exactly the new hub's id and keeps the ids distinct. */
  lemma PeersIds(hubs: seq<HubRow>, newId: HubId)
    requires DistinctIds(hubs)
    ensures IdsOf(Peers(hubs, newId)) == IdsOf(hubs) - {newId}
    ensures DistinctIds(Peers(hubs, newId))
  {
    PeersIdSet(hubs, newId);
    PeersDistinct(hubs, newId);
  }

  lemma {:induction false} PeersIdSet(hubs: seq<HubRow>, newId: HubId)
    ensures IdsOf(Peers(hubs, newId)) == IdsOf(hubs) - {newId}
  {
    if |hubs| > 0 {
      var init := hubs[..|hubs| - 1];
      var last := hubs[|hubs| - 1];
      PeersIdSet(init, newId);
      IdsOfAppend(init, last);
      assert hubs == init + [last];
      var p := Peers(init, newId);
      if last.id != newId {
        assert Peers(hubs, newId) == p + [last];
        IdsOfAppend(p, last);
      } else {
        assert Peers(hubs, newId) == p;
      }
    }
  }

  lemma {:induction false} PeersDistinct(hubs: seq<HubRow>, newId: HubId)
    requires DistinctIds(hubs)
    ensures DistinctIds(Peers(hubs, newId))
  {
    if |hubs| > 0 {
      var init := hubs[..|hubs| - 1];
      var last := hubs[|hubs| - 1];
      assert DistinctIds(init) by {
        forall i, j | 0 <= i < j < |init|
          ensures init[i].id != init[j].id
        {
          assert init[i] == hubs[i] && init[j] == hubs[j];
        }
      }
      PeersDistinct(init, newId);
      var p := Peers(init, newId);
      if last.id != newId {
        assert Peers(hubs, newId) == p + [last];
        forall i | 0 <= i < |p|
          ensures p[i].id != last.id
        {
          assert p[i] in init;
          var j :| 0 <= j < |init| && init[j] == p[i];
          assert hubs[j] == init[j];
        }
        var q := p + [last];
        forall i, j | 0 <= i < j < |q|
          ensures q[i].id != q[j].id
        {
          if j < |p| {
            assert q[i] == p[i] && q[j] == p[j];
          } else {
            assert q[i] == p[i] && q[j] == last;
          }
        }
      } else {
        assert Peers(hubs, newId) == p;
      }
    }
  }

  /** A list without repeated ids has as many elements as ids. */
  lemma {:induction false} DistinctIdsCount(rs: seq<HubRow>)
    requires DistinctIds(rs)
    ensures |IdsOf(rs)| == |rs|
  {
    if |rs| > 0 {
      var init := rs[..|rs| - 1];
      var last := rs[|rs| - 1];
      assert rs == init + [last];
      DistinctIdsCount(init);
      IdsOfAppend(init, last);
      assert last.id !in IdsOf(init);
    }
  }

  /** The soft-deleted copies of a list of routes. */
  function MarkAll(rs: seq<RouteRow>, deletedBy: string, now: Timestamp): (m: seq<RouteRow>)
    ensures |m| == |rs| && forall i :: 0 <= i < |rs| ==> m[i] == SoftDeleted(rs[i], deletedBy, now)
  {
    seq(|rs|, i requires 0 <= i < |rs| => SoftDeleted(rs[i], deletedBy, now))
  }

  /** The store after `deactivateRoutesForHub`: every active route touching `h` soft-deleted. */
  function Deactivated(rows: seq<RouteRow>, h: HubId, deletedBy: string, now: Timestamp): seq<RouteRow> {
    seq(|rows|, i requires 0 <= i < |rows| =>
      if ActiveTouching(rows[i], h) then SoftDeleted(rows[i], deletedBy, now) else rows[i])
  }

  /**
   * Deactivation soft-deletes exactly the active routes touching the hub, leaves every other
   * route as it was, and leaves no active route touching the hub; the ids are kept.
   */
  lemma DeactivatedEffect(rows: seq<RouteRow>, h: HubId, deletedBy: string, now: Timestamp)
    ensures |Deactivated(rows, h, deletedBy, now)| == |rows|
    ensures forall i :: 0 <= i < |rows| && ActiveTouching(rows[i], h) ==>
      Deactivated(rows, h, deletedBy, now)[i] == SoftDeleted(rows[i], deletedBy, now)
    ensures forall i :: 0 <= i < |rows| && !ActiveTouching(rows[i], h) ==>
      Deactivated(rows, h, deletedBy, now)[i] == rows[i]
    ensures FindAllByHubId(Deactivated(rows, h, deletedBy, now), h) == []
    ensures WellFormed(rows) ==> WellFormed(Deactivated(rows, h, deletedBy, now))
  {
  }

  /** A second deactivation, by anyone at any time, changes nothing. */
  lemma DeactivatedIdempotent(rows: seq<RouteRow>, h: HubId, by1: string, t1: Timestamp, by2: string, t2: Timestamp)
    ensures Deactivated(Deactivated(rows, h, by1, t1), h, by2, t2) == Deactivated(rows, h, by1, t1)
  {
  }

  lemma FilterOfLonger(rows: seq<RouteRow>, p: RouteRow -> bool, n: nat)
    requires 0 < n <= |rows|
    ensures Filter(rows[..n], p) == Filter(rows[..n - 1], p) + (if p(rows[n - 1]) then [rows[n - 1]] else [])
  {
    assert rows[..n][..n - 1] == rows[..n - 1];
  }

  lemma MarkAllAppend(rs: seq<RouteRow>, x: RouteRow, deletedBy: string, now: Timestamp)
    ensures MarkAll(rs + [x], deletedBy, now) == MarkAll(rs, deletedBy, now) + [SoftDeleted(x, deletedBy, now)]
  {
  }

  lemma SaveBatchAppend(rows: seq<RouteRow>, batch: seq<RouteRow>, y: RouteRow)
    requires WellFormed(rows)
    ensures SaveBatch(rows, batch + [y]).rows == SaveOne(SaveBatch(rows, batch).rows, y).rows
  {
    assert (batch + [y])[..|batch|] == batch;
  }

  lemma SaveOneReplacesStored(rows: seq<RouteRow>, r: RouteRow, k: nat)
    requires WellFormed(rows) && k < |rows| && r.id == Some(k + 1)
    ensures SaveOne(rows, r).rows == rows[k := r]
  {
  }

  /** The store with the first `n` rows deactivated. */
  function DeactivatedUpTo(rows: seq<RouteRow>, h: HubId, deletedBy: string, now: Timestamp, n: nat): seq<RouteRow>
    requires n <= |rows|
  {
    Deactivated(rows[..n], h, deletedBy, now) + rows[n..]
  }

  lemma DeactivatedUpToStep(rows: seq<RouteRow>, h: HubId, deletedBy: string, now: Timestamp, n: nat)
    requires 0 < n <= |rows|
    ensures DeactivatedUpTo(rows, h, deletedBy, now, n) ==
      DeactivatedUpTo(rows, h, deletedBy, now, n - 1)[n - 1 :=
        if ActiveTouching(rows[n - 1], h) then SoftDeleted(rows[n - 1], deletedBy, now) else rows[n - 1]]
  {
  }

  /** The store after saving the soft-deleted copies of the first `n` rows' matches. */
  function SavedUpTo(rows: seq<RouteRow>, h: HubId, deletedBy: string, now: Timestamp, n: nat): seq<RouteRow>
    requires WellFormed(rows) && n <= |rows|
  {
    SaveBatch(rows, MarkAll(Filter(rows[..n], TouchingHub(h)), deletedBy, now)).rows
  }

  /** Saving the soft-deleted copies of the first `n` rows' matches deactivates that prefix. */
  lemma {:induction false} DeactivationSavesPrefix(rows: seq<RouteRow>, h: HubId, deletedBy: string, now: Timestamp, n: nat)
    requires WellFormed(rows) && n <= |rows|
    ensures SavedUpTo(rows, h, deletedBy, now, n) == DeactivatedUpTo(rows, h, deletedBy, now, n)
  {
    if n == 0 {
      assert rows[..0] == [];
      assert rows[0..] == rows;
    } else {
      DeactivationSavesPrefix(rows, h, deletedBy, now, n - 1);
      DeactivationSavesStep(rows, h, deletedBy, now, n);
    }
  }

  lemma DeactivationSavesStep(rows: seq<RouteRow>, h: HubId, deletedBy: string, now: Timestamp, n: nat)
    requires WellFormed(rows) && 0 < n <= |rows|
    requires SavedUpTo(rows, h, deletedBy, now, n - 1) == DeactivatedUpTo(rows, h, deletedBy, now, n - 1)
    ensures SavedUpTo(rows, h, deletedBy, now, n) == DeactivatedUpTo(rows, h, deletedBy, now, n)
  {
    var m := n - 1;
    FilterOfLonger(rows, TouchingHub(h), n);
    DeactivatedUpToStep(rows, h, deletedBy, now, n);
    var found := Filter(rows[..m], TouchingHub(h));
    var before := DeactivatedUpTo(rows, h, deletedBy, now, m);
    assert |before| == |rows|;
    if ActiveTouching(rows[m], h) {
      var x := SoftDeleted(rows[m], deletedBy, now);
      assert Filter(rows[..n], TouchingHub(h)) == found + [rows[m]];
      MarkAllAppend(found, rows[m], deletedBy, now);
      SaveBatchAppend(rows, MarkAll(found, deletedBy, now), x);
      SaveOneReplacesStored(before, x, m);
    } else {
      assert Filter(rows[..n], TouchingHub(h)) == found;
      assert before[m] == rows[m];
      assert before[m := rows[m]] == before;
    }
  }

  /** Saving the soft-deleted copies of the routes `findAllByHubId` lists is exactly deactivation. */
  lemma DeactivationSaves(rows: seq<RouteRow>, h: HubId, deletedBy: string, now: Timestamp)
    requires WellFormed(rows)
    ensures SaveBatch(rows, MarkAll(FindAllByHubId(rows, h), deletedBy, now)).rows == Deactivated(rows, h, deletedBy, now)
  {
    DeactivationSavesPrefix(rows, h, deletedBy, now, |rows|);
    assert SavedUpTo(rows, h, deletedBy, now, |rows|) == SaveBatch(rows, MarkAll(Filter(rows[..|rows|], TouchingHub(h)), deletedBy, now)).rows;
    assert rows[..|rows|] == rows;
    assert rows[|rows|..] == [];
    assert DeactivatedUpTo(rows, h, deletedBy, now, |rows|) == Deactivated(rows, h, deletedBy, now);
  }

  /** The route source filter of `findAllSourceBy`. */
  function SourceIs(h: HubId): RouteRow -> bool {
    (x: RouteRow) => x.source == h
  }

  /** The route engine. */
  class HubRouteService {
    const hubFinder: HubQueryService
    const routeRepository: HubRouteRepository
    const calculator: Calculator
    const messages: MessageOutbox

    ghost predicate Valid()
      reads this, hubFinder, hubFinder.hubRepository, routeRepository
    {
      hubFinder.hubRepository.Valid() && routeRepository.Valid()
    }

    constructor (hubFinder: HubQueryService, routeRepository: HubRouteRepository,
                 calculator: Calculator, messages: MessageOutbox)
      ensures this.hubFinder == hubFinder && this.routeRepository == routeRepository
      ensures this.calculator == calculator && this.messages == messages
    {
      this.hubFinder := hubFinder;
      this.routeRepository := routeRepository;
      this.calculator := calculator;
      this.messages := messages;
    }

    /**
     * `calculateRoutesForNewHub`: an unknown hub or a failing route computation writes nothing
     * and publishes nothing; otherwise the two routes per other active hub are saved and one
     * route signal is published. `peers` is the order in which the store listed the active hubs.
     */
    method CalculateRoutesForNewHub(hubId: Uuid) returns (o: Outcome<HubError>, ghost peers: seq<HubRow>)
      requires Valid()
      modifies routeRepository, messages
      ensures Valid()
      ensures Find(hubFinder.hubRepository.hubs, hubId).Failure? ==> o == Fail(HubNotFound(hubId))
      ensures Find(hubFinder.hubRepository.hubs, hubId).Success? ==> forall h :: h in peers <==>
        h in ActiveHubs(hubFinder.hubRepository.hubs) && h.id != HubId(hubId)
      ensures Find(hubFinder.hubRepository.hubs, hubId).Success? ==>
        var routes := RoutesFor(peers, Find(hubFinder.hubRepository.hubs, hubId).value, calculator);
        && (routes.Failure? ==> o == Fail(routes.error))
        && (routes.Success? ==> o.Pass? && routeRepository.rows == SaveBatch(old(routeRepository.rows), routes.value).rows)
      ensures o.Fail? ==> routeRepository.rows == old(routeRepository.rows) && messages.sent == old(messages.sent)
      ensures o.Pass? ==>
        && messages.sent == old(messages.sent) + [RouteMessage(HubRouteUpdated(hubId))]
        && |routeRepository.rows| == |old(routeRepository.rows)| + 2 * |ActiveIds(hubFinder.hubRepository.hubs) - {HubId(hubId)}|
    {
      var found := Find(hubFinder.hubRepository.hubs, hubId);
      if found.Failure? {
        o, peers := Fail(found.error), [];
        return;
      }
      var newHub := found.value;
      var active := hubFinder.FindAllActive();
      var others := Peers(active, newHub.id);
      peers := others;
      var routes := RoutesFor(others, newHub, calculator);
      if routes.Failure? {
        o := Fail(routes.error);
        return;
      }
      var saved := routeRepository.SaveAll(routes.value);
      messages.Publish(RouteMessage(HubRouteUpdated(hubId)));
      o := Pass;
      PeersIds(active, newHub.id);
      DistinctIdsCount(peers);
      RoutesForShape(peers, newHub, calculator);
      RoutesTouchNewHubOnly(peers, newHub, calculator);
      SaveBatchAppendsNewRoutes(old(routeRepository.rows), routes.value);
    }

    /**
     * `deactivateRoutesForHub`: each active route touching the hub is loaded, soft-deleted in
     * place and saved back; one route signal is published, also when there was nothing to delete.
     */
    method DeactivateRoutesForHub(hubId: Uuid, deletedBy: string, now: Timestamp)
      requires Valid()
      modifies routeRepository, messages
      ensures Valid()
      ensures routeRepository.rows == Deactivated(old(routeRepository.rows), HubId(hubId), deletedBy, now)
      ensures messages.sent == old(messages.sent) + [RouteMessage(HubRouteUpdated(hubId))]
    {
      var h := HubId(hubId);
      var routes := FindAllByHubId(routeRepository.rows, h);
      var marked: seq<RouteRow> := [];
      for i := 0 to |routes|
        invariant routeRepository.rows == old(routeRepository.rows)
        invariant messages.sent == old(messages.sent)
        invariant |marked| == i
        invariant forall k :: 0 <= k < i ==> marked[k] == SoftDeleted(routes[k], deletedBy, now)
      {
        var route := new HubRoute.Load(routes[i]);
        route.Delete(deletedBy, now);
        marked := marked + [route.Row()];
      }
      assert marked == MarkAll(routes, deletedBy, now);
      DeactivationSaves(routeRepository.rows, h, deletedBy, now);
      var _ := routeRepository.SaveAll(marked);
      messages.Publish(RouteMessage(HubRouteUpdated(hubId)));
    }

    /** `findAllSourceBy`: exactly the active stored routes leaving the hub. */
    method FindAllSourceBy(hubId: Uuid) returns (routes: seq<RouteRow>)
      ensures forall r :: r in routes <==>
        r in routeRepository.rows && r.IsActive() && r.source == HubId(hubId)
    {
      routes := Filter(FindAllByHubId(routeRepository.rows, HubId(hubId)), SourceIs(HubId(hubId)));
    }

    /** `findAllByActive`: exactly the active stored routes. */
    method FindAllByActive() returns (routes: seq<RouteRow>)
      ensures forall r :: r in routes <==> r in routeRepository.rows && r.IsActive()
    {
      routes := FindAllByDeletedAtIsNull(routeRepository.rows);
    }
  }
}
