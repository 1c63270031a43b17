# Hub service core, modelled in Dafny

This project models the core of the hub service of a logistics platform. Hubs are
registered, updated, soft-deleted and handed to a new manager. Each change raises a domain event.
After the change commits, a handler recomputes the directed route graph between hubs and forwards
the event to a message broker.

The model follows the Java code file by file:

- `hub.dfy` (module `HubAggregate`): the `Hub` aggregate.
  - Each rule is a function on the hub's state (`HubRow`).
  - The entity class `Hub` assigns its fields in place and is proved to follow those functions.
  - On any failure the entity is left unchanged.
- `manager_ids.dfy` (`ManagerIds`): the `HubManagerId` value object, with its null-checking
  factory, its UUID round trip and its 8-4-4-4-12 text form.
- `hub_events.dfy` (`HubEvents`): the four events as value snapshots, the route signal, and the
  broker routing keys.
- `sinks.dfy` (`Sinks`): the two publishers, as append-only sequences:
  - the domain event channel;
  - the broker outbox.
- `member_existence.dfy` (`MemberExistence`): the member check over the member-service client.
- `hub_repository.dfy` (`HubStore`): the hub store, a map from hub id to hub state.
  - `save` writes a hub.
  - The active-hub enumeration is a loop.
  - The keyword search filter.
- `hub_query.dfy` (`HubQueries`): the read side.
  - Lookup by id.
  - The active list.
  - Keyword upper-casing.
  - Manager lookup.
- `hub_route.dfy` (`Routes`): the route entity.
  - The factory.
  - Id-based `equals` and `Objects.hash(id)`, with Java `int` wrap-around and `Long.hashCode`
    written out.
  - The inherited soft delete, applied in place.
- `hub_route_repository.dfy` (`RouteStore`): the route store. The row at position i carries the
  identity-column id i + 1.
  - `save` and `saveAll`.
  - The four queries.
- `hub_route_service.dfy` (`RouteEngine`): the route engine.
  - Two routes per other active hub, as a function.
  - The headline counting and shape lemmas.
  - Deactivation as a loop over loaded route entities, proved equal to a pointwise soft delete.
  - The two queries.
- `hub_manage_service.dfy` (`HubManagement`): the lifecycle service. Each operation runs
  find → mutate → save → publish.
- `hub_event_handler.dfy` (`EventHandling`): the post-commit listeners and a dispatch over the
  event variant.

External collaborators are parameters of the model:

- the permission checker is a predicate on the requester id;
- the member-service client is a function to an optional member;
- the route calculator is a function from two coordinates to an optional answer (`None` is a call
  that threw);
- the manager-info finder is a function;
- the clock value (`now`) and the newly generated hub id are method parameters.

Coordinates and distances are Java `Double`s that the core only copies. They are kept as opaque
64-bit patterns.

### Where the code does something unexpected

The model follows the code in each case:

- The member check in `register` and `changeManager` is given the requester's id
  (`Hub.java:95`, `Hub.java:170`), not the requested manager's id. `HubAggregate.UnknownManagerAccepted`
  states the consequence.
- The registered and deleted listeners run the route step first and forward the event only if that
  step returned normally (`HubEventHandler.java:56-57`, `83-84`). A route step that throws
  therefore suppresses the broker message.
- The shown `HubRepository` does not declare `findAllByDeletedAtIsNull`, which `HubQueryService`
  calls. The model adds it as the active-hub filter.
- Route creation does not check that source and target differ (`HubRoute.java:81-84`). Self-routes
  are avoided only because the route engine filters the new hub out of the peer set.

## Model

| member | source | states |
|---|---|---|
| Text.UpperContainsNoLowerCase | src/main/java/com/athenhub/hubservice/hub/domain/HubRepository.java:72-74 | an upper-cased column never contains a keyword that still holds a lower-case letter |
| ManagerIds.HubManagerId.ToString | src/main/java/com/athenhub/hubservice/hub/domain/vo/HubManagerId.java:56-59 | the text form is 36 characters long; its layout and injectivity are the two lemmas below |
| ManagerIds.Of | src/main/java/com/athenhub/hubservice/hub/domain/vo/HubManagerId.java:43-45 | `of` of a null id is refused; of a UUID it yields a manager id whose `toUuid` is that UUID |
| ManagerIds.OfToUuidRoundTrip | src/main/java/com/athenhub/hubservice/hub/domain/vo/HubManagerId.java:43-54 | `of(u).toUuid() == u`, and `of(m.toUuid()) == m` |
| ManagerIds.EqualIffSameUuid | src/main/java/com/athenhub/hubservice/hub/domain/vo/HubManagerId.java:28-34 | two manager ids are equal exactly when their UUIDs are |
| ManagerIds.UuidStringShape | src/main/java/com/athenhub/hubservice/hub/domain/vo/HubManagerId.java:56-59 | the string is 36 characters with dashes at positions 8, 13, 18 and 23 |
| ManagerIds.ToStringInjective | src/main/java/com/athenhub/hubservice/hub/domain/vo/HubManagerId.java:56-59 | different manager ids have different text forms |
| HubAggregate.RegisterResult | src/main/java/com/athenhub/hubservice/hub/domain/Hub.java:89-106 | permission refused gives PermissionDenied; unknown requester gives MemberNotFound; a null name or manager id gives a null failure; otherwise a new active hub with the new id and the request fields |
| HubAggregate.UpdateInfoResult | src/main/java/com/athenhub/hubservice/hub/domain/Hub.java:119-126 | permission refused or null name fails; otherwise name, address and coordinate replaced and id, manager and deletion fields kept |
| HubAggregate.DeleteResult | src/main/java/com/athenhub/hubservice/hub/domain/Hub.java:138-142 | succeeds exactly when permission is granted; then deletedAt is the clock, deletedBy the actor, every other field kept |
| HubAggregate.ChangeManagerResult | src/main/java/com/athenhub/hubservice/hub/domain/Hub.java:164-173 | permission before member check; success exactly when both pass and the id is non-null; then only the manager changes |
| HubAggregate.PermissionCheckedFirst | src/main/java/com/athenhub/hubservice/hub/domain/Hub.java:94-95 | when both checks would fail, register and changeManager report PermissionDenied |
| HubAggregate.UnknownManagerAccepted | src/main/java/com/athenhub/hubservice/hub/domain/Hub.java:170 | the member check looks at the requester, so a manager id unknown to the member service is accepted |
| HubAggregate.DeleteNotGuardedAgainstRedelete | src/main/java/com/athenhub/hubservice/hub/domain/Hub.java:138-142 | deleting a deleted hub succeeds and re-stamps it |
| HubAggregate.Hub.Register | src/main/java/com/athenhub/hubservice/hub/domain/Hub.java:89-106 | a fresh hub entity whose state is the register rule's result, or that rule's error |
| HubAggregate.Hub.UpdateInfo | src/main/java/com/athenhub/hubservice/hub/domain/Hub.java:119-126 | the new state is the update rule applied to the old one; on failure no field changed |
| HubAggregate.Hub.Delete | src/main/java/com/athenhub/hubservice/hub/domain/Hub.java:138-142 | the new state is the delete rule applied to the old one; on failure no field changed |
| HubAggregate.Hub.ChangeManager | src/main/java/com/athenhub/hubservice/hub/domain/Hub.java:164-173 | the new state is the change-manager rule applied to the old one; on failure no field changed |
| HubEvents.RoutingKey | src/main/java/com/athenhub/hubservice/hub/infrastructure/HubRabbitMqPublisher.java:33-48 | registrations go under "registered", updates under "updated", deletions under "deleted", manager changes under "managerChanged", each in both directions |
| HubEvents.RoutingKeySeparatesVariants | src/main/java/com/athenhub/hubservice/hub/infrastructure/HubRabbitMqPublisher.java:33-48 | two events share a routing key exactly when they are the same variant |
| HubEvents.RegisteredSnapshot | src/main/java/com/athenhub/hubservice/hub/domain/event/HubRegistered.java:24-28 | the event carries the hub id, name, manager UUID and the requester name |
| HubEvents.UpdatedCarriesNoHubId | src/main/java/com/athenhub/hubservice/hub/domain/event/HubUpdated.java:15-26 | the update event has no hub id: hubs with equal name and manager give equal events |
| HubEvents.DeletedNamesRequester | src/main/java/com/athenhub/hubservice/hub/domain/event/HubDeleted.java:24-26 | the deletion event names the requester whatever the hub's deletedBy, plus hub id and manager |
| HubEvents.ManagerChangedSnapshot | src/main/java/com/athenhub/hubservice/hub/domain/event/HubManagerChanged.java:31-38 | old manager as given, new manager read from the hub, hub id, name and requester |
| Sinks.EventChannel.Publish | src/main/java/com/athenhub/hubservice/hub/application/service/HubManageService.java:58 | the event is appended to the channel |
| Sinks.MessageOutbox.Publish | src/main/java/com/athenhub/hubservice/hub/application/service/HubRouteService.java:62 | the message is appended to the outbox |
| MemberExistence.HasMember | src/main/java/com/athenhub/hubservice/hub/infrastructure/MemberExistenceCheckService.java:26-29 | false for a null answer, true for an activated member, false for a deactivated one |
| MemberExistence.HasMemberDependsOnlyOnAnswer | src/main/java/com/athenhub/hubservice/hub/infrastructure/MemberExistenceCheckService.java:27-28 | two clients that answer the same for the id give the same verdict |
| HubStore.FindById | src/main/java/com/athenhub/hubservice/hub/domain/HubRepository.java:47 | found exactly when the id is stored, and then the stored hub |
| HubStore.SaveThenFind | src/main/java/com/athenhub/hubservice/hub/domain/HubRepository.java:39-47 | after a save the hub is found under its id, other ids find what they found before, and the keying invariant holds |
| HubStore.SearchWithoutKeyword | src/main/java/com/athenhub/hubservice/hub/domain/HubRepository.java:71 | a null keyword applies no text filter |
| HubStore.SearchWithKeyword | src/main/java/com/athenhub/hubservice/hub/domain/HubRepository.java:71-76 | with a keyword a hub matches exactly when an upper-cased name, street or detail contains it and the deletion filter passes |
| HubStore.SearchNoMatch | src/main/java/com/athenhub/hubservice/hub/domain/HubRepository.java:71-75 | a keyword matching no hub gives an empty result |
| HubStore.SearchDeletionFilter | src/main/java/com/athenhub/hubservice/hub/domain/HubRepository.java:76 | without includeDeleted only active hubs; with it a superset that adds only deleted hubs |
| HubStore.LowerCaseKeywordMatchesNothing | src/main/java/com/athenhub/hubservice/hub/domain/HubRepository.java:72-74 | a keyword still holding a lower-case letter matches no hub at the store |
| HubStore.HubRepository.Save | src/main/java/com/athenhub/hubservice/hub/domain/HubRepository.java:39 | the hub's state is stored under its id, replacing any earlier one |
| HubStore.HubRepository.FindAllByDeletedAtIsNull | src/main/java/com/athenhub/hubservice/hub/application/service/HubQueryService.java:56 | every active stored hub exactly once, each as stored, nothing else |
| HubQueries.Find | src/main/java/com/athenhub/hubservice/hub/application/service/HubQueryService.java:46-52 | the stored hub, deleted or not, when the id is stored; HubNotFound otherwise |
| HubQueries.FindIgnoresDeletion | src/main/java/com/athenhub/hubservice/hub/application/service/HubQueryService.java:46-52 | a soft-deleted hub is still found |
| HubQueries.NormalizeKeyword | src/main/java/com/athenhub/hubservice/hub/application/service/HubQueryService.java:61-62 | null stays null; any other keyword keeps its length, each lower-case ASCII letter becomes its upper-case letter and every other character is kept |
| HubQueries.SearchHubs | src/main/java/com/athenhub/hubservice/hub/application/service/HubQueryService.java:59-65 | a hub is returned exactly when stored, passing the deletion filter and, for a non-null keyword, containing its upper-cased form in an upper-cased column |
| HubQueries.SearchIgnoresKeywordCase | src/main/java/com/athenhub/hubservice/hub/application/service/HubQueryService.java:61-62 | a keyword and its upper-cased form return the same hubs |
| HubQueries.SearchHubsActiveOnly | src/main/java/com/athenhub/hubservice/hub/domain/HubRepository.java:71-76 | without includeDeleted every result is active; a null keyword returns all active or all stored hubs |
| HubQueries.FindManager | src/main/java/com/athenhub/hubservice/hub/application/service/HubQueryService.java:67-72 | fails exactly when find fails; otherwise the manager-info answer for the hub's manager id |
| HubQueries.HubQueryService.FindAllActive | src/main/java/com/athenhub/hubservice/hub/application/service/HubQueryService.java:54-57 | exactly the active stored hubs, with their ids, each once |
| Routes.Create | src/main/java/com/athenhub/hubservice/hub/domain/HubRoute.java:77-87 | fails exactly when an argument is null; otherwise a new active route with the given fields and no id |
| Routes.CreateAcceptsSelfRoute | src/main/java/com/athenhub/hubservice/hub/domain/HubRoute.java:81-84 | a route from a hub to itself is accepted |
| Routes.SoftDeleted | src/main/java/com/athenhub/hubservice/hub/domain/HubRoute.java:46 | the inherited delete: deletedAt and deletedBy set, everything else kept |
| Routes.IdHashOfSmallId | src/main/java/com/athenhub/hubservice/hub/domain/HubRoute.java:112-115 | an unsaved route hashes to 31; an id below 2^31 - 31 hashes to 31 plus the id |
| Routes.HubRoute.Delete | src/main/java/com/athenhub/hubservice/hub/application/service/HubRouteService.java:96 | the route entity is soft-deleted in place |
| Routes.EqualsIsReflexiveAndSymmetric | src/main/java/com/athenhub/hubservice/hub/domain/HubRoute.java:90-96 | equality is reflexive, symmetric and false against null |
| Routes.EqualsIsIdEquality | src/main/java/com/athenhub/hubservice/hub/domain/HubRoute.java:105-109 | two distinct route objects are equal exactly when both carry the same id |
| Routes.UnsavedRouteEqualsOnlyItself | src/main/java/com/athenhub/hubservice/hub/domain/HubRoute.java:109 | a route without an id equals only itself |
| Routes.HashCodeConsistentWithEquals | src/main/java/com/athenhub/hubservice/hub/domain/HubRoute.java:112-115 | equal routes have equal hash codes |
| RouteStore.SaveOne | src/main/java/com/athenhub/hubservice/hub/domain/HubRouteRepository.java:25 | a stored id is replaced in place; any other route is inserted with the next id; all other rows kept |
| RouteStore.FindById | src/main/java/com/athenhub/hubservice/hub/domain/HubRouteRepository.java:49 | found exactly when a stored row carries the id, and then that row |
| RouteStore.SaveThenFindById | src/main/java/com/athenhub/hubservice/hub/domain/HubRouteRepository.java:25-49 | after a save the route is found under its id and every other id finds the same as before |
| RouteStore.SaveBatch | src/main/java/com/athenhub/hubservice/hub/domain/HubRouteRepository.java:34 | every saved route is the batch route with a stored id |
| RouteStore.SaveBatchThenFind | src/main/java/com/athenhub/hubservice/hub/domain/HubRouteRepository.java:34-49 | a route of the batch that no later batch route overwrote is stored under the id it was saved with |
| RouteStore.SaveBatchKeepsUntouched | src/main/java/com/athenhub/hubservice/hub/domain/HubRouteRepository.java:34 | a stored row that no batch route was saved to is unchanged |
| RouteStore.SaveBatchAppendsNewRoutes | src/main/java/com/athenhub/hubservice/hub/domain/HubRouteRepository.java:34 | a batch of new routes is appended with consecutive new ids |
| RouteStore.FindAll | src/main/java/com/athenhub/hubservice/hub/domain/HubRouteRepository.java:41 | every stored route, in store order |
| RouteStore.FindAllByHubId | src/main/java/com/athenhub/hubservice/hub/domain/HubRouteRepository.java:59-68 | exactly the stored routes that are active and start or end at the hub |
| RouteStore.FindAllByDeletedAtIsNull | src/main/java/com/athenhub/hubservice/hub/domain/HubRouteRepository.java:75 | exactly the stored active routes |
| RouteStore.DeletedRoutesOnlyInFindAll | src/main/java/com/athenhub/hubservice/hub/domain/HubRouteRepository.java:41-75 | a deleted route is listed by findAll and by neither active query |
| RouteStore.HubRouteRepository.Save | src/main/java/com/athenhub/hubservice/hub/domain/HubRouteRepository.java:25 | the store and the returned route are those of the save rule |
| RouteStore.HubRouteRepository.SaveAll | src/main/java/com/athenhub/hubservice/hub/domain/HubRouteRepository.java:34 | the store and the returned routes are those of saving each route in turn |
| RouteEngine.RouteBetween | src/main/java/com/athenhub/hubservice/hub/application/service/HubRouteService.java:111-119 | a thrown calculator call fails the route; otherwise the route from one hub to the other with the calculator's distance and duration, null fields refused |
| RouteEngine.BidirectionalRoutes | src/main/java/com/athenhub/hubservice/hub/application/service/HubRouteService.java:110-122 | succeeds exactly when both directions do, giving [hub1→hub2, hub2→hub1]; the first direction's failure is the one reported |
| RouteEngine.Peers | src/main/java/com/athenhub/hubservice/hub/application/service/HubRouteService.java:55-56 | exactly the listed hubs other than the new one |
| RouteEngine.RoutesForShape | src/main/java/com/athenhub/hubservice/hub/application/service/HubRouteService.java:54-58 | the batch succeeds exactly when every pair does; then 2 routes per peer, peer→new at 2i and new→peer at 2i + 1 |
| RouteEngine.RoutesTouchNewHubOnly | src/main/java/com/athenhub/hubservice/hub/application/service/HubRouteService.java:56-57 | every route of the batch touches the new hub, none is a self-route, all are new and active |
| RouteEngine.PeersIds | src/main/java/com/athenhub/hubservice/hub/application/service/HubRouteService.java:51-56 | the peer ids are the listed ids minus the new hub's, without repeats |
| RouteEngine.DistinctIdsCount | src/main/java/com/athenhub/hubservice/hub/application/service/HubRouteService.java:51 | a hub list without repeated ids has as many hubs as ids |
| RouteEngine.DeactivatedEffect | src/main/java/com/athenhub/hubservice/hub/application/service/HubRouteService.java:94-96 | exactly the active routes touching the hub are soft-deleted, the rest kept, ids kept, none touching the hub left active |
| RouteEngine.DeactivatedIdempotent | src/main/java/com/athenhub/hubservice/hub/application/service/HubRouteService.java:94-96 | a second deactivation changes nothing |
| RouteEngine.DeactivationSaves | src/main/java/com/athenhub/hubservice/hub/application/service/HubRouteService.java:95-98 | saving the soft-deleted copies of the routes found by hub gives exactly the deactivated store |
| RouteEngine.HubRouteService.CalculateRoutesForNewHub | src/main/java/com/athenhub/hubservice/hub/application/service/HubRouteService.java:47-63 | unknown hub or failed computation: nothing written or published; otherwise the store holds the batch for the active peers, 2 × (active hubs other than the new one) more rows, and one route signal |
| RouteEngine.HubRouteService.DeactivateRoutesForHub | src/main/java/com/athenhub/hubservice/hub/application/service/HubRouteService.java:94-101 | the store becomes its deactivation for the hub; one route signal is published, also for an empty batch |
| RouteEngine.HubRouteService.FindAllSourceBy | src/main/java/com/athenhub/hubservice/hub/application/service/HubRouteService.java:71-76 | exactly the active stored routes whose source is the hub |
| RouteEngine.HubRouteService.FindAllByActive | src/main/java/com/athenhub/hubservice/hub/application/service/HubRouteService.java:83-86 | exactly the active stored routes |
| HubManagement.HubManageService.Register | src/main/java/com/athenhub/hubservice/hub/application/service/HubManageService.java:52-61 | the register rule's result; on success the hub is stored and one HubRegistered from it raised; on failure nothing written or raised |
| HubManagement.HubManageService.UpdateInfo | src/main/java/com/athenhub/hubservice/hub/application/service/HubManageService.java:63-75 | unknown hub: HubNotFound; otherwise the update rule on the stored hub; on success stored and one HubUpdated raised; on failure nothing written or raised |
| HubManagement.HubManageService.Delete | src/main/java/com/athenhub/hubservice/hub/application/service/HubManageService.java:77-88 | unknown hub: HubNotFound; otherwise the delete rule; on success stored with deletedBy and deletedAt and one HubDeleted raised; on failure nothing written or raised |
| HubManagement.HubManageService.ChangeManager | src/main/java/com/athenhub/hubservice/hub/application/service/HubManageService.java:90-100 | unknown hub: HubNotFound; on success the stored manager is the new id and the one HubManagerChanged names the manager before and after; on failure nothing written or raised |
| EventHandling.HubEventHandler.HandleHubRegistered | src/main/java/com/athenhub/hubservice/hub/infrastructure/HubEventHandler.java:53-58 | the route step always runs: unknown hub gives HubNotFound; a failed batch gives its error with nothing written or forwarded; a successful batch passes, the store holds the saved batch for the active peers, and the route signal then the event are sent |
| EventHandling.HubEventHandler.HandleHubUpdated | src/main/java/com/athenhub/hubservice/hub/infrastructure/HubEventHandler.java:67-71 | the event forwarded once; the route store untouched |
| EventHandling.HubEventHandler.HandleHubDeleted | src/main/java/com/athenhub/hubservice/hub/infrastructure/HubEventHandler.java:80-85 | the hub's routes deactivated in the requester's name, the route signal, then the event forwarded |
| EventHandling.HubEventHandler.HandleHubManagerChanged | src/main/java/com/athenhub/hubservice/hub/infrastructure/HubEventHandler.java:94-98 | the event forwarded once; the route store untouched |
| EventHandling.HubEventHandler.Dispatch | src/main/java/com/athenhub/hubservice/hub/infrastructure/HubEventHandler.java:53-98 | each variant reaches its listener: a registration has the registered listener's outcome and store; updates and manager changes pass with the store untouched; a deletion passes with the deactivated store; a normal return forwards exactly the received event, last, after at most one route signal |

## Left out

- Spring transactions, `@Async` and `@TransactionalEventListener`:
  - they are framework concurrency;
  - each listener is a sequential method run after the mutating call;
  - rollback, thread pools and concurrent deliveries are not modelled.
- The broker (`HubRabbitMqPublisher`) is not modelled. Publishing appends to a sequence, and the
  routing-key mapping is a function.
- The remote clients are oracles given as parameters, because they are remote calls:
  - the member service;
  - the manager-info service;
  - the permission service;
  - the route calculator.
- Floating point is not modelled. Latitude, longitude and distance are copied, never computed with.
- UUID generation and the clock are parameters. `Register` requires the new id to be absent from
  the store.
- Paging and sorting of `search` are not modelled, because they are framework concerns. The
  search is a set of matching hubs.
- `LIKE` wildcards inside a keyword are treated as literal characters.
- Upper-casing and substring search cover ASCII letters only. There is no locale or Unicode case
  mapping.
- HTTP controllers, request and response records, and Bean Validation annotations are presentation
  glue. Requests are datatypes whose `null`-able fields are `Option`s.
- `AbstractAuditEntity` is not part of this model, and neither are its timestamps. Its `delete`
  is taken to set `deletedAt` to the clock and `deletedBy` to the actor, overwriting earlier
  values.
- `Address.of` and `Coordinate.of` are not part of this model. They are taken to be plain wrappers
  without checks.
- The Hibernate proxy unwrapping in `HubRoute.equals` is not modelled. Class equality is taken to
  hold between any two routes.
- `HubManagerId`'s Lombok `hashCode` is not modelled; only its equality is.
- `RouteStore.SaveOne`: saving a route whose id is not stored inserts it with a new id. This
  stands in for the persistence provider's merge of a detached entity.
- Route ids are unbounded naturals, so the overflow of the `Long` identity column is not modelled.
- `HubRouteManageService`, which the listeners call, is not part of this model. It is taken to be
  `HubRouteService`, which has the same two methods.
- The stores hold values, not managed entities. `DeactivateRoutesForHub` loads each found route
  into a new `HubRoute` object, soft-deletes it in place and saves it back. Aliasing between
  entities held by several callers is not modelled.
- `RouteEngine.HubRouteService.CalculateRoutesForNewHub`: the order in which the store lists active
  hubs is not fixed. The method reports the order it used as a ghost out-parameter, and the saved
  batch is stated for that order.
- `EventHandling.HubEventHandler.HandleHubRegistered` and `EventHandling.HubEventHandler.Dispatch`: the
  order in which the store lists active hubs is not fixed, so, as for the route engine method,
  the saved batch is stated for the peer order reported in a ghost out-parameter.
- `HubQueries.FindManager`: the manager-info finder's own failures are not modelled; its answer is
  returned as given.
