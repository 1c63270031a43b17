/**
 * The hub lifecycle service (`HubManageService`): each operation finds the hub, applies the
 * aggregate's rule in place, saves the hub and raises one domain event, in that order.
 */
module HubManagement {
  import opened Wrappers
  import opened Common
  import opened ManagerIds
  import opened HubAggregate
  import opened HubStore
  import opened HubQueries
  import opened HubEvents
  import opened Sinks
  import opened MemberExistence

  class HubManageService {
    const hubRepository: HubRepository
    const hubFinder: HubQueryService
    /** The permission oracle (`PermissionChecker`). */
    const permits: Uuid -> bool
    /** The member-service client behind `MemberExistenceChecker`. */
    const memberClient: Uuid -> Option<MemberInfo>
    const channel: EventChannel

    ghost predicate Valid()
      reads this, hubFinder, hubRepository
    {
      hubFinder.hubRepository == hubRepository && hubRepository.Valid()
    }

    constructor (hubRepository: HubRepository, hubFinder: HubQueryService, permits: Uuid -> bool,
                 memberClient: Uuid -> Option<MemberInfo>, channel: EventChannel)
      requires hubFinder.hubRepository == hubRepository
      ensures this.hubRepository == hubRepository && this.hubFinder == hubFinder
      ensures this.permits == permits && this.memberClient == memberClient && this.channel == channel
    {
      this.hubRepository := hubRepository;
      this.hubFinder := hubFinder;
      this.permits := permits;
      this.memberClient := memberClient;
      this.channel := channel;
    }

    /** The member check as the aggregate sees it. */
    function Members(): Uuid -> bool {
      (id: Uuid) => HasMember(memberClient, id)
    }

    /**
     * `register`: the aggregate's rule; on success the new hub is saved and one `HubRegistered`
     * built from it is raised; on failure nothing is written or raised. `newId` is the freshly
     * generated id.
     */
    method Register(req: RegisterRequest, requestId: Uuid, requestUsername: string, newId: HubId)
      returns (r: Result<HubRow, HubError>)
      requires Valid() && newId !in hubRepository.hubs
      modifies hubRepository, channel
      ensures Valid()
      ensures r == RegisterResult(req, permits, Members(), requestId, newId)
      ensures r.Success? ==>
        && hubRepository.hubs == old(hubRepository.hubs)[newId := r.value]
        && channel.events == old(channel.events) + [Registered(RegisteredFrom(r.value, requestUsername))]
      ensures r.Failure? ==>
        hubRepository.hubs == old(hubRepository.hubs) && channel.events == old(channel.events)
    {
      var created := Hub.Register(req, permits, Members(), requestId, newId);
      if created.Failure? {
        return Failure(created.error);
      }
      var hub := created.value;
      hubRepository.Save(hub);
      channel.Publish(Registered(RegisteredFrom(hub.Row(), requestUsername)));
      r := Success(hub.Row());
    }

    /**
     * `updateInfo`: an unknown hub or a failing guard writes and raises nothing; otherwise the
     * updated hub replaces the stored one and one `HubUpdated` is raised.
     */
    method UpdateInfo(hubId: Uuid, req: UpdateRequest, requestId: Uuid, requestUsername: string)
      returns (r: Result<HubRow, HubError>)
      requires Valid()
      modifies hubRepository, channel
      ensures Valid()
      ensures HubId(hubId) !in old(hubRepository.hubs) ==> r == Failure(HubNotFound(hubId))
      ensures HubId(hubId) in old(hubRepository.hubs) ==>
        r == UpdateInfoResult(old(hubRepository.hubs)[HubId(hubId)], req, permits, requestId)
      ensures r.Success? ==>
        && hubRepository.hubs == old(hubRepository.hubs)[HubId(hubId) := r.value]
        && channel.events == old(channel.events) + [Updated(UpdatedFrom(r.value, requestUsername))]
      ensures r.Failure? ==>
        hubRepository.hubs == old(hubRepository.hubs) && channel.events == old(channel.events)
    {
      var found := Find(hubFinder.hubRepository.hubs, hubId);
      if found.Failure? {
        return Failure(found.error);
      }
      var hub := new Hub.Load(found.value);
      var o := hub.UpdateInfo(req, permits, requestId);
      if o.Fail? {
        return Failure(o.error);
      }
      hubRepository.Save(hub);
      channel.Publish(Updated(UpdatedFrom(hub.Row(), requestUsername)));
      r := Success(hub.Row());
    }

    /**
     * `delete`: an unknown hub or a refused permission writes and raises nothing; otherwise the
     * soft-deleted hub replaces the stored one and one `HubDeleted` is raised.
     */
    method Delete(hubId: Uuid, deleteBy: string, requestId: Uuid, requestUsername: string, now: Timestamp)
      returns (r: Result<HubRow, HubError>)
      requires Valid()
      modifies hubRepository, channel
      ensures Valid()
      ensures HubId(hubId) !in old(hubRepository.hubs) ==> r == Failure(HubNotFound(hubId))
      ensures HubId(hubId) in old(hubRepository.hubs) ==>
        r == DeleteResult(old(hubRepository.hubs)[HubId(hubId)], deleteBy, permits, requestId, now)
      ensures r.Success? ==>
        && hubRepository.hubs == old(hubRepository.hubs)[HubId(hubId) := r.value]
        && r.value.deletedBy == Some(deleteBy) && r.value.deletedAt == Some(now)
        && channel.events == old(channel.events) + [Deleted(DeletedFrom(r.value, requestUsername))]
      ensures r.Failure? ==>
        hubRepository.hubs == old(hubRepository.hubs) && channel.events == old(channel.events)
    {
      var found := Find(hubFinder.hubRepository.hubs, hubId);
      if found.Failure? {
        return Failure(found.error);
      }
      var hub := new Hub.Load(found.value);
      var o := hub.Delete(deleteBy, permits, requestId, now);
      if o.Fail? {
        return Failure(o.error);
      }
      hubRepository.Save(hub);
      channel.Publish(Deleted(DeletedFrom(hub.Row(), requestUsername)));
      r := Success(hub.Row());
    }

    /**
     * `changeManager`: an unknown hub or a failing guard writes and raises nothing; otherwise
     * the stored hub carries the new manager and the one `HubManagerChanged` raised names the
     * manager read before the change and the one after it.
     */
    method ChangeManager(hubId: Uuid, newManagerId: Option<Uuid>, requestId: Uuid, requestUsername: string)
      returns (o: Outcome<HubError>)
      requires Valid()
      modifies hubRepository, channel
      ensures Valid()
      ensures HubId(hubId) !in old(hubRepository.hubs) ==> o == Fail(HubNotFound(hubId))
      ensures HubId(hubId) in old(hubRepository.hubs) ==>
        var result := ChangeManagerResult(old(hubRepository.hubs)[HubId(hubId)], newManagerId, permits, Members(), requestId);
        && (result.Failure? ==> o == Fail(result.error))
        && (result.Success? ==> o.Pass? && hubRepository.hubs == old(hubRepository.hubs)[HubId(hubId) := result.value])
      ensures o.Pass? ==>
        && HubId(hubId) in hubRepository.hubs
        && hubRepository.hubs[HubId(hubId)].managerId.ToUuid() == newManagerId.value
        && channel.events == old(channel.events) + [ManagerChanged(ManagerChangedFrom(
             hubRepository.hubs[HubId(hubId)], old(hubRepository.hubs)[HubId(hubId)].managerId.ToUuid(), requestUsername))]
      ensures o.Fail? ==>
        hubRepository.hubs == old(hubRepository.hubs) && channel.events == old(channel.events)
    {
      var found := Find(hubFinder.hubRepository.hubs, hubId);
      if found.Failure? {
        return Fail(found.error);
      }
      var hub := new Hub.Load(found.value);
      var oldManagerId := hub.managerId.ToUuid();
      o := hub.ChangeManager(newManagerId, permits, Members(), requestId);
      if o.Fail? {
        return;
      }
      hubRepository.Save(hub);
      channel.Publish(ManagerChanged(ManagerChangedFrom(hub.Row(), oldManagerId, requestUsername)));
    }
  }
}
