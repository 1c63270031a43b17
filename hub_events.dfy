/**
 * The four hub domain events and the route signal: immutable value snapshots built from a
 * hub's state at the moment an operation completed.
 */
module HubEvents {
  import opened Wrappers
  import opened Common
  import opened HubAggregate

  datatype HubRegistered = HubRegistered(hubId: Uuid, hubName: string, hubManagerId: Uuid, requestUsername: string)

  /** Carries no hub id. */
  datatype HubUpdated = HubUpdated(hubName: string, hubManagerId: Uuid, requestUsername: string)

  datatype HubDeleted = HubDeleted(hubId: Uuid, hubManagerId: Uuid, requestUsername: string)

  datatype HubManagerChanged = HubManagerChanged(
    hubId: Uuid, hubName: string, oldHubManagerId: Uuid, newHubManagerId: Uuid, requestUsername: string)

  /** The route-graph signal; its one field, named `requestId` in the code, holds the hub id. */
  datatype HubRouteUpdated = HubRouteUpdated(requestId: Uuid)

  /** Any of the four domain events. */
  datatype HubEvent =
    | Registered(registered: HubRegistered)
    | Updated(updated: HubUpdated)
    | Deleted(deleted: HubDeleted)
    | ManagerChanged(managerChanged: HubManagerChanged)

  function RegisteredFrom(hub: HubRow, requestUsername: string): HubRegistered {
    HubRegistered(hub.id.ToUuid(), hub.name, hub.managerId.ToUuid(), requestUsername)
  }

  function UpdatedFrom(hub: HubRow, requestUsername: string): HubUpdated {
    HubUpdated(hub.name, hub.managerId.ToUuid(), requestUsername)
  }

  function DeletedFrom(hub: HubRow, requestUsername: string): HubDeleted {
    HubDeleted(hub.id.ToUuid(), hub.managerId.ToUuid(), requestUsername)
  }

  function ManagerChangedFrom(hub: HubRow, oldHubManagerId: Uuid, requestUsername: string): HubManagerChanged {
    HubManagerChanged(hub.id.ToUuid(), hub.name, oldHubManagerId, hub.managerId.ToUuid(), requestUsername)
  }

  /** The routing key `HubRabbitMqPublisher` sends each event variant under. */
  function RoutingKey(e: HubEvent): (key: string)
    ensures key in {"registered", "updated", "deleted", "managerChanged"}
    ensures e.Registered? <==> key == "registered"
    ensures e.Updated? <==> key == "updated"
    ensures e.Deleted? <==> key == "deleted"
    ensures e.ManagerChanged? <==> key == "managerChanged"
  {
    match e
    case Registered(_) => "registered"
    case Updated(_) => "updated"
    case Deleted(_) => "deleted"
    case ManagerChanged(_) => "managerChanged"
  }

  /** Different variants travel under different routing keys. */
  lemma RoutingKeySeparatesVariants(a: HubEvent, b: HubEvent)
    ensures RoutingKey(a) == RoutingKey(b) <==>
      (a.Registered? && b.Registered?) || (a.Updated? && b.Updated?) ||
      (a.Deleted? && b.Deleted?) || (a.ManagerChanged? && b.ManagerChanged?)
  {
  }

  /** A registration snapshot names the hub, its manager and the requester. */
  lemma RegisteredSnapshot(hub: HubRow, u: string)
    ensures RegisteredFrom(hub, u).hubId == hub.id.ToUuid()
    ensures RegisteredFrom(hub, u).hubName == hub.name
    ensures RegisteredFrom(hub, u).hubManagerId == hub.managerId.ToUuid()
    ensures RegisteredFrom(hub, u).requestUsername == u
  {
  }

  /** An update snapshot has no hub id, so two hubs with the same name and manager give the same event. */
  lemma UpdatedCarriesNoHubId(h1: HubRow, h2: HubRow, u: string)
    requires h1.name == h2.name && h1.managerId == h2.managerId
    ensures UpdatedFrom(h1, u) == UpdatedFrom(h2, u)
  {
  }

  /** A deletion snapshot records the requester, whatever the hub's own `deletedBy` says. */
  lemma DeletedNamesRequester(hub: HubRow, u: string)
    ensures DeletedFrom(hub, u).requestUsername == u
    ensures DeletedFrom(hub.(deletedBy := None), u) == DeletedFrom(hub, u)
    ensures DeletedFrom(hub, u).hubId == hub.id.ToUuid()
    ensures DeletedFrom(hub, u).hubManagerId == hub.managerId.ToUuid()
  {
  }

  /** A manager-change snapshot keeps the old id it is given and reads the new one from the hub. */
  lemma ManagerChangedSnapshot(hub: HubRow, oldId: Uuid, u: string)
    ensures ManagerChangedFrom(hub, oldId, u).oldHubManagerId == oldId
    ensures ManagerChangedFrom(hub, oldId, u).newHubManagerId == hub.managerId.ToUuid()
    ensures ManagerChangedFrom(hub, oldId, u).hubId == hub.id.ToUuid()
    ensures ManagerChangedFrom(hub, oldId, u).hubName == hub.name
    ensures ManagerChangedFrom(hub, oldId, u).requestUsername == u
  {
  }
}
