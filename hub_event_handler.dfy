/**
 * The post-commit handler (`HubEventHandler`): for a registration or a deletion it first runs
 * the route step, then forwards the received event to the broker; updates and manager changes
 * are only forwarded.
 */
module EventHandling {
  import opened Wrappers
  import opened Common
  import opened HubAggregate
  import opened HubStore
  import opened HubQueries
  import opened RouteStore
  import opened RouteEngine
  import opened HubEvents
  import opened Sinks

  /** The route signal a listener publishes before forwarding the event: one for a registration or deletion. */
  function RouteSignals(e: HubEvent): (m: seq<Message>)
    ensures |m| == (if e.Registered? || e.Deleted? then 1 else 0)
    ensures e.Registered? ==> m == [RouteMessage(HubRouteUpdated(e.registered.hubId))]
    ensures e.Deleted? ==> m == [RouteMessage(HubRouteUpdated(e.deleted.hubId))]
  {
    match e
    case Registered(r) => [RouteMessage(HubRouteUpdated(r.hubId))]
    case Deleted(d) => [RouteMessage(HubRouteUpdated(d.hubId))]
    case _ => []
  }

  class HubEventHandler {
    const routeService: HubRouteService
    const messages: MessageOutbox

    ghost predicate Valid()
      reads this, routeService, routeService.hubFinder, routeService.hubFinder.hubRepository, routeService.routeRepository
    {
      routeService.Valid() && routeService.messages == messages
    }

    constructor (routeService: HubRouteService, messages: MessageOutbox)
      requires routeService.messages == messages
      ensures this.routeService == routeService && this.messages == messages
    {
      this.routeService := routeService;
      this.messages := messages;
    }

    /**
     * `handleHubRegistered`: the routes for the new hub, then the event itself; if the route
     * step throws, nothing is forwarded.
     */
    method HandleHubRegistered(e: HubRegistered) returns (o: Outcome<HubError>, ghost peers: seq<HubRow>)
      requires Valid()
      modifies routeService.routeRepository, messages
      ensures Valid()
      ensures Find(routeService.hubFinder.hubRepository.hubs, e.hubId).Failure? ==> o == Fail(HubNotFound(e.hubId))
      ensures Find(routeService.hubFinder.hubRepository.hubs, e.hubId).Success? ==> forall h :: h in peers <==>
        h in ActiveHubs(routeService.hubFinder.hubRepository.hubs) && h.id != HubId(e.hubId)
      ensures Find(routeService.hubFinder.hubRepository.hubs, e.hubId).Success? ==>
        var routes := RoutesFor(peers, Find(routeService.hubFinder.hubRepository.hubs, e.hubId).value, routeService.calculator);
        && (routes.Failure? ==> o == Fail(routes.error))
        && (routes.Success? ==>
             o.Pass? && routeService.routeRepository.rows == SaveBatch(old(routeService.routeRepository.rows), routes.value).rows)
      ensures o.Pass? ==>
        && messages.sent == old(messages.sent) + [RouteMessage(HubRouteUpdated(e.hubId)), HubMessage(Registered(e))]
        && |routeService.routeRepository.rows| ==
           |old(routeService.routeRepository.rows)| + 2 * |ActiveIds(routeService.hubFinder.hubRepository.hubs) - {HubId(e.hubId)}|
      ensures o.Fail? ==>
        messages.sent == old(messages.sent) && routeService.routeRepository.rows == old(routeService.routeRepository.rows)
    {
      o, peers := routeService.CalculateRoutesForNewHub(e.hubId);
      if o.Fail? {
        return;
      }
      messages.Publish(HubMessage(Registered(e)));
    }

    /** `handleHubUpdated`: the event is forwarded once; the route store is untouched. */
    method HandleHubUpdated(e: HubUpdated)
      requires Valid()
      modifies messages
      ensures Valid()
      ensures messages.sent == old(messages.sent) + [HubMessage(Updated(e))]
      ensures routeService.routeRepository.rows == old(routeService.routeRepository.rows)
    {
      messages.Publish(HubMessage(Updated(e)));
    }

    /**
     * `handleHubDeleted`: the hub's routes soft-deleted by the event's requester, then the event
     * itself.
     */
    method HandleHubDeleted(e: HubDeleted, now: Timestamp)
      requires Valid()
      modifies routeService.routeRepository, messages
      ensures Valid()
      ensures routeService.routeRepository.rows ==
        Deactivated(old(routeService.routeRepository.rows), HubId(e.hubId), e.requestUsername, now)
      ensures messages.sent == old(messages.sent) + [RouteMessage(HubRouteUpdated(e.hubId)), HubMessage(Deleted(e))]
    {
      routeService.DeactivateRoutesForHub(e.hubId, e.requestUsername, now);
      messages.Publish(HubMessage(Deleted(e)));
    }

    /** `handleHubManagerChanged`: the event is forwarded once; the route store is untouched. */
    method HandleHubManagerChanged(e: HubManagerChanged)
      requires Valid()
      modifies messages
      ensures Valid()
      ensures messages.sent == old(messages.sent) + [HubMessage(ManagerChanged(e))]
      ensures routeService.routeRepository.rows == old(routeService.routeRepository.rows)
    {
      messages.Publish(HubMessage(ManagerChanged(e)));
    }

    /**
     * The listener each event variant is delivered to. Whatever the variant, a delivery that
     * returns normally forwards exactly the received event, last.
     */
    method Dispatch(e: HubEvent, now: Timestamp) returns (o: Outcome<HubError>, ghost peers: seq<HubRow>)
      requires Valid()
      modifies routeService.routeRepository, messages
      ensures Valid()
      ensures e.Registered? && Find(routeService.hubFinder.hubRepository.hubs, e.registered.hubId).Failure? ==>
        o == Fail(HubNotFound(e.registered.hubId))
      ensures e.Registered? && Find(routeService.hubFinder.hubRepository.hubs, e.registered.hubId).Success? ==>
        && (forall h :: h in peers <==>
             h in ActiveHubs(routeService.hubFinder.hubRepository.hubs) && h.id != HubId(e.registered.hubId))
        && var routes := RoutesFor(peers, Find(routeService.hubFinder.hubRepository.hubs, e.registered.hubId).value, routeService.calculator);
           && (routes.Failure? ==> o == Fail(routes.error))
           && (routes.Success? ==>
                o.Pass? && routeService.routeRepository.rows == SaveBatch(old(routeService.routeRepository.rows), routes.value).rows)
      ensures o.Pass? ==> |messages.sent| > 0 && messages.sent[|messages.sent| - 1] == HubMessage(e)
      ensures o.Pass? ==> messages.sent[..|messages.sent| - 1] == old(messages.sent) + RouteSignals(e)
      ensures (e.Updated? || e.ManagerChanged?) ==>
        o.Pass? && routeService.routeRepository.rows == old(routeService.routeRepository.rows)
      ensures e.Deleted? ==>
        && o.Pass?
        && routeService.routeRepository.rows ==
           Deactivated(old(routeService.routeRepository.rows), HubId(e.deleted.hubId), e.deleted.requestUsername, now)
      ensures o.Fail? ==>
        && e.Registered?
        && messages.sent == old(messages.sent)
        && routeService.routeRepository.rows == old(routeService.routeRepository.rows)
    {
      peers := [];
      match e
      case Registered(r) =>
        o, peers := HandleHubRegistered(r);
      case Updated(u) =>
        HandleHubUpdated(u);
        o := Pass;
      case Deleted(d) =>
        HandleHubDeleted(d, now);
        o := Pass;
      case ManagerChanged(m) =>
        HandleHubManagerChanged(m);
        o := Pass;
    }
  }
}
