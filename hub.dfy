/**
 * The Hub aggregate: the rules of registration, update, soft deletion and change of manager,
 * stated on the hub's persisted state (`HubRow`), and the entity class `Hub` whose methods
 * apply them to its fields in place.
 */
module HubAggregate {
  import opened Wrappers
  import opened Common
  import opened ManagerIds

  datatype Address = Address(street: string, detail: string)

  datatype Coordinate = Coordinate(latitude: JDouble, longitude: JDouble)

  /** `HubRegisterRequest`; a `None` name or manager id is a Java `null`. */
  datatype RegisterRequest = RegisterRequest(
    name: Option<string>,
    streetAddress: string,
    detailAddress: string,
    latitude: JDouble,
    longitude: JDouble,
    managerId: Option<Uuid>)

  /** `HubUpdateRequest`; a `None` name is a Java `null`. */
  datatype UpdateRequest = UpdateRequest(
    name: Option<string>,
    streetAddress: string,
    detailAddress: string,
    latitude: JDouble,
    longitude: JDouble)

  /** The state of one hub; `deletedAt`/`deletedBy` are the soft-delete audit fields. */
  datatype HubRow = HubRow(
    id: HubId,
    name: string,
    address: Address,
    coordinate: Coordinate,
    managerId: HubManagerId,
    deletedAt: Option<Timestamp>,
    deletedBy: Option<string>)
  {
    /** A hub is active while it has not been soft-deleted. */
    predicate IsActive() {
      deletedAt.None?
    }
  }

  /** `checkManagePermission`: the permission oracle must grant the requester. */
  function CheckManagePermission(permits: Uuid -> bool, requestId: Uuid): Outcome<HubError> {
    if permits(requestId) then Pass else Fail(PermissionDenied)
  }

  /** `checkMemberExistence`: the member oracle must know the id it is given. */
  function CheckMemberExistence(hasMember: Uuid -> bool, memberId: Uuid): Outcome<HubError> {
    if hasMember(memberId) then Pass else Fail(MemberNotFound(memberId))
  }

  /**
   * `Hub.register`: the new hub, or the error thrown. The member check is given the
   * requester's id, as the code does, not the requested manager's.
   */
  function RegisterResult(
    req: RegisterRequest, permits: Uuid -> bool, hasMember: Uuid -> bool,
    requestId: Uuid, newId: HubId): (r: Result<HubRow, HubError>)
    ensures !permits(requestId) ==> r == Failure(PermissionDenied)
    ensures permits(requestId) && !hasMember(requestId) ==> r == Failure(MemberNotFound(requestId))
    ensures r.Success? <==>
      permits(requestId) && hasMember(requestId) && req.name.Some? && req.managerId.Some?
    ensures r.Failure? && permits(requestId) && hasMember(requestId) ==> r.error == NullArgument
    ensures r.Success? ==>
      && r.value.id == newId
      && Some(r.value.name) == req.name
      && r.value.address == Address(req.streetAddress, req.detailAddress)
      && r.value.coordinate == Coordinate(req.latitude, req.longitude)
      && Of(req.managerId) == Some(r.value.managerId)
      && r.value.IsActive() && r.value.deletedBy.None?
  {
    match CheckManagePermission(permits, requestId)
    case Fail(e) => Failure(e)
    case Pass =>
      match CheckMemberExistence(hasMember, requestId)
      case Fail(e) => Failure(e)
      case Pass =>
        if req.name.None? then Failure(NullArgument)
        else
          match Of(req.managerId)
          case None => Failure(NullArgument)
          case Some(managerId) =>
            Success(HubRow(newId, req.name.value,
                           Address(req.streetAddress, req.detailAddress),
                           Coordinate(req.latitude, req.longitude),
                           managerId, None, None))
  }

  /** `Hub.updateInfo`: name, address and coordinate replaced; nothing else touched. */
  function UpdateInfoResult(
    h: HubRow, req: UpdateRequest, permits: Uuid -> bool, requestId: Uuid): (r: Result<HubRow, HubError>)
    ensures !permits(requestId) ==> r == Failure(PermissionDenied)
    ensures r.Success? <==> permits(requestId) && req.name.Some?
    ensures r.Failure? && permits(requestId) ==> r.error == NullArgument
    ensures r.Success? ==>
      && Some(r.value.name) == req.name
      && r.value.address == Address(req.streetAddress, req.detailAddress)
      && r.value.coordinate == Coordinate(req.latitude, req.longitude)
      && r.value.id == h.id && r.value.managerId == h.managerId
      && r.value.deletedAt == h.deletedAt && r.value.deletedBy == h.deletedBy
  {
    match CheckManagePermission(permits, requestId)
    case Fail(e) => Failure(e)
    case Pass =>
      if req.name.None? then Failure(NullArgument)
      else
        Success(h.(name := req.name.value,
                   address := Address(req.streetAddress, req.detailAddress),
                   coordinate := Coordinate(req.latitude, req.longitude)))
  }

  /** `Hub.delete`: a soft delete stamped with the clock and the actor; a deleted hub is not refused. */
  function DeleteResult(
    h: HubRow, deleteBy: string, permits: Uuid -> bool, requestId: Uuid, now: Timestamp): (r: Result<HubRow, HubError>)
    ensures r.Success? <==> permits(requestId)
    ensures !permits(requestId) ==> r == Failure(PermissionDenied)
    ensures r.Success? ==>
      && r.value.deletedAt == Some(now) && r.value.deletedBy == Some(deleteBy)
      && !r.value.IsActive()
      && r.value.id == h.id && r.value.name == h.name && r.value.address == h.address
      && r.value.coordinate == h.coordinate && r.value.managerId == h.managerId
  {
    match CheckManagePermission(permits, requestId)
    case Fail(e) => Failure(e)
    case Pass => Success(h.(deletedAt := Some(now), deletedBy := Some(deleteBy)))
  }

  /** `Hub.changeManager`: the manager replaced; the member check is given the requester's id. */
  function ChangeManagerResult(
    h: HubRow, newManagerId: Option<Uuid>, permits: Uuid -> bool, hasMember: Uuid -> bool,
    requestId: Uuid): (r: Result<HubRow, HubError>)
    ensures !permits(requestId) ==> r == Failure(PermissionDenied)
    ensures permits(requestId) && !hasMember(requestId) ==> r == Failure(MemberNotFound(requestId))
    ensures r.Success? <==> permits(requestId) && hasMember(requestId) && newManagerId.Some?
    ensures r.Success? ==>
      && Of(newManagerId) == Some(r.value.managerId)
      && r.value.id == h.id && r.value.name == h.name && r.value.address == h.address
      && r.value.coordinate == h.coordinate
      && r.value.deletedAt == h.deletedAt && r.value.deletedBy == h.deletedBy
  {
    match CheckManagePermission(permits, requestId)
    case Fail(e) => Failure(e)
    case Pass =>
      match CheckMemberExistence(hasMember, requestId)
      case Fail(e) => Failure(e)
      case Pass =>
        match Of(newManagerId)
        case None => Failure(NullArgument)
        case Some(managerId) => Success(h.(managerId := managerId))
  }

  /** A permission failure masks a member failure: the permission check runs first. */
  lemma PermissionCheckedFirst(
    req: RegisterRequest, h: HubRow, newManagerId: Option<Uuid>, permits: Uuid -> bool,
    hasMember: Uuid -> bool, requestId: Uuid, newId: HubId)
    requires !permits(requestId) && !hasMember(requestId)
    ensures RegisterResult(req, permits, hasMember, requestId, newId) == Failure(PermissionDenied)
    ensures ChangeManagerResult(h, newManagerId, permits, hasMember, requestId) == Failure(PermissionDenied)
  {
  }

  /**
   * The member check looks at the requester: a manager id that the member oracle does not
   * know is accepted as long as the requester is known.
   */
  lemma UnknownManagerAccepted(
    h: HubRow, newManager: Uuid, permits: Uuid -> bool, hasMember: Uuid -> bool, requestId: Uuid)
    requires permits(requestId) && hasMember(requestId) && !hasMember(newManager)
    ensures ChangeManagerResult(h, Some(newManager), permits, hasMember, requestId).Success?
    ensures ChangeManagerResult(h, Some(newManager), permits, hasMember, requestId).value.managerId.ToUuid() == newManager
  {
  }

  /** Deleting an already deleted hub succeeds again and re-stamps it. */
  lemma DeleteNotGuardedAgainstRedelete(
    h: HubRow, deleteBy: string, permits: Uuid -> bool, requestId: Uuid, now: Timestamp)
    requires !h.IsActive() && permits(requestId)
    ensures DeleteResult(h, deleteBy, permits, requestId, now) == Success(h.(deletedAt := Some(now), deletedBy := Some(deleteBy)))
  {
  }

  /** The hub entity; each method checks its guards before it assigns any field. */
  class Hub {
    var id: HubId
    var name: string
    var address: Address
    var coordinate: Coordinate
    var managerId: HubManagerId
    var deletedAt: Option<Timestamp>
    var deletedBy: Option<string>

    /** The entity's state as a value. */
    function Row(): HubRow
      reads this
    {
      HubRow(id, name, address, coordinate, managerId, deletedAt, deletedBy)
    }

    /** A new, never deleted hub filled field by field, as `register` does. */
    constructor Init(id: HubId, name: string, address: Address, coordinate: Coordinate, managerId: HubManagerId)
      ensures Row() == HubRow(id, name, address, coordinate, managerId, None, None)
    {
      this.id := id;
      this.name := name;
      this.address := address;
      this.coordinate := coordinate;
      this.managerId := managerId;
      this.deletedAt := None;
      this.deletedBy := None;
    }

    /** A stored hub loaded as an entity. */
    constructor Load(row: HubRow)
      ensures Row() == row
    {
      id := row.id;
      name := row.name;
      address := row.address;
      coordinate := row.coordinate;
      managerId := row.managerId;
      deletedAt := row.deletedAt;
      deletedBy := row.deletedBy;
    }

    /** `Hub.register`; `newId` is the id `HubId.generateId` hands out. */
    static method Register(
      req: RegisterRequest, permits: Uuid -> bool, hasMember: Uuid -> bool,
      requestId: Uuid, newId: HubId) returns (r: Result<Hub, HubError>)
      ensures r.Success? ==>
        fresh(r.value) && RegisterResult(req, permits, hasMember, requestId, newId) == Success(r.value.Row())
      ensures r.Failure? ==>
        RegisterResult(req, permits, hasMember, requestId, newId) == Failure(r.error)
    {
      var permission := CheckManagePermission(permits, requestId);
      if permission.Fail? {
        return Failure(permission.error);
      }
      var member := CheckMemberExistence(hasMember, requestId);
      if member.Fail? {
        return Failure(member.error);
      }
      if req.name.None? {
        return Failure(NullArgument);
      }
      var managerId := Of(req.managerId);
      if managerId.None? {
        return Failure(NullArgument);
      }
      var hub := new Hub.Init(newId, req.name.value,
                              Address(req.streetAddress, req.detailAddress),
                              Coordinate(req.latitude, req.longitude),
                              managerId.value);
      return Success(hub);
    }

    /** `updateInfo`: on failure no field has been assigned. */
    method UpdateInfo(req: UpdateRequest, permits: Uuid -> bool, requestId: Uuid) returns (o: Outcome<HubError>)
      modifies this
      ensures UpdateInfoResult(old(Row()), req, permits, requestId) ==
              (if o.Pass? then Success(Row()) else Failure(o.error))
      ensures o.Fail? ==> Row() == old(Row())
    {
      var permission := CheckManagePermission(permits, requestId);
      if permission.Fail? {
        return permission;
      }
      if req.name.None? {
        return Fail(NullArgument);
      }
      name := req.name.value;
      address := Address(req.streetAddress, req.detailAddress);
      coordinate := Coordinate(req.latitude, req.longitude);
      return Pass;
    }

    /** `delete`: the inherited soft delete, after the permission check. */
    method Delete(deleteBy: string, permits: Uuid -> bool, requestId: Uuid, now: Timestamp) returns (o: Outcome<HubError>)
      modifies this
      ensures DeleteResult(old(Row()), deleteBy, permits, requestId, now) ==
              (if o.Pass? then Success(Row()) else Failure(o.error))
      ensures o.Fail? ==> Row() == old(Row())
    {
      var permission := CheckManagePermission(permits, requestId);
      if permission.Fail? {
        return permission;
      }
      deletedAt := Some(now);
      deletedBy := Some(deleteBy);
      return Pass;
    }

    /** `changeManager`: on failure the manager is unchanged. */
    method ChangeManager(
      newManagerId: Option<Uuid>, permits: Uuid -> bool, hasMember: Uuid -> bool,
      requestId: Uuid) returns (o: Outcome<HubError>)
      modifies this
      ensures ChangeManagerResult(old(Row()), newManagerId, permits, hasMember, requestId) ==
              (if o.Pass? then Success(Row()) else Failure(o.error))
      ensures o.Fail? ==> Row() == old(Row())
    {
      var permission := CheckManagePermission(permits, requestId);
      if permission.Fail? {
        return permission;
      }
      var member := CheckMemberExistence(hasMember, requestId);
      if member.Fail? {
        return member;
      }
      var m := Of(newManagerId);
      if m.None? {
        return Fail(NullArgument);
      }
      managerId := m.value;
      return Pass;
    }
  }
}
