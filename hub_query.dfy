/** The read side of the hub service (`HubQueryService`): lookup, active list, search, manager lookup. */
module HubQueries {
  import opened Wrappers
  import opened Common
  import opened Text
  import opened ManagerIds
  import opened HubAggregate
  import opened HubStore

  /** `HubSearchCondition`; a `None` keyword is a Java `null`. */
  datatype SearchCondition = SearchCondition(keyword: Option<string>, includeDeleted: bool)

  /** `find`: the stored hub, deleted or not, or the error for an unknown id. */
  function Find(hubs: map<HubId, HubRow>, hubId: Uuid): (r: Result<HubRow, HubError>)
    ensures r.Success? <==> HubId(hubId) in hubs
    ensures r.Success? ==> r.value == hubs[HubId(hubId)]
    ensures r.Success? && KeyedById(hubs) ==> r.value.id.ToUuid() == hubId
    ensures r.Failure? ==> r.error == HubNotFound(hubId)
  {
    match FindById(hubs, HubId(hubId))
    case None => Failure(HubNotFound(hubId))
    case Some(h) => Success(h)
  }

  /** A soft-deleted hub is still found by id. */
  lemma FindIgnoresDeletion(hubs: map<HubId, HubRow>, hubId: Uuid, actor: string, now: Timestamp)
    requires HubId(hubId) in hubs
    ensures Find(hubs[HubId(hubId) := hubs[HubId(hubId)].(deletedAt := Some(now), deletedBy := Some(actor))], hubId).Success?
    ensures !Find(hubs[HubId(hubId) := hubs[HubId(hubId)].(deletedAt := Some(now), deletedBy := Some(actor))], hubId).value.IsActive()
  {
  }

  /** The stored hubs that are not soft-deleted. */
  function ActiveHubs(hubs: map<HubId, HubRow>): set<HubRow> {
    set h | h in hubs.Values && h.IsActive()
  }

  /** The elements of a list, as a set. */
  function Elements(rs: seq<HubRow>): set<HubRow> {
    set i | 0 <= i < |rs| :: rs[i]
  }

  /** `search`'s keyword normalisation: a `null` keyword stays `null`, any other is upper-cased. */
  function NormalizeKeyword(keyword: Option<string>): (k: Option<string>)
    ensures k.None? <==> keyword.None?
    ensures k.Some? ==> |k.value| == |keyword.value|
    ensures k.Some? ==> forall i :: 0 <= i < |k.value| ==> !IsLowerAscii(k.value[i])
    ensures k.Some? ==> forall i :: 0 <= i < |k.value| ==>
      && (IsLowerAscii(keyword.value[i]) ==> k.value[i] as int == keyword.value[i] as int - 32)
      && (!IsLowerAscii(keyword.value[i]) ==> k.value[i] == keyword.value[i])
  {
    match keyword
    case None => None
    case Some(s) => Some(Upper(s))
  }

  /** `search` without paging: the store's filter applied to the normalised condition. */
  function SearchHubs(hubs: map<HubId, HubRow>, cond: SearchCondition): (r: set<HubRow>)
    ensures forall h :: h in r <==>
      && h in hubs.Values
      && (cond.includeDeleted || h.IsActive())
      && (|| cond.keyword.None?
          || Contains(Upper(h.name), Upper(cond.keyword.value))
          || Contains(Upper(h.address.street), Upper(cond.keyword.value))
          || Contains(Upper(h.address.detail), Upper(cond.keyword.value)))
  {
    Search(hubs, NormalizeKeyword(cond.keyword), cond.includeDeleted)
  }

  /** A keyword matches the same hubs whatever the case of its letters. */
  lemma {:induction false} SearchIgnoresKeywordCase(hubs: map<HubId, HubRow>, k: string, includeDeleted: bool)
    ensures SearchHubs(hubs, SearchCondition(Some(k), includeDeleted))
         == SearchHubs(hubs, SearchCondition(Some(Upper(k)), includeDeleted))
  {
    UpperIdempotent(k);
  }

  /** With `includeDeleted` false every returned hub is active; a `null` keyword filters nothing else. */
  lemma SearchHubsActiveOnly(hubs: map<HubId, HubRow>, keyword: Option<string>)
    ensures forall h :: h in SearchHubs(hubs, SearchCondition(keyword, false)) ==> h.IsActive()
    ensures SearchHubs(hubs, SearchCondition(None, false)) == ActiveHubs(hubs)
    ensures SearchHubs(hubs, SearchCondition(None, true)) == hubs.Values
  {
  }

  /**
   * `findManager`: fails exactly when `find` fails; otherwise the manager-info oracle's answer
   * for the hub's manager id.
   */
  function FindManager<T>(hubs: map<HubId, HubRow>, hubId: Uuid, finder: HubManagerId -> T): (r: Result<T, HubError>)
    ensures r.Failure? <==> Find(hubs, hubId).Failure?
    ensures r.Failure? ==> r.error == HubNotFound(hubId)
    ensures r.Success? ==> r.value == finder(hubs[HubId(hubId)].managerId)
  {
    match Find(hubs, hubId)
    case Failure(e) => Failure(e)
    case Success(h) => Success(finder(h.managerId))
  }

  /** The read-side service; its list query goes through the store. */
  class HubQueryService {
    const hubRepository: HubRepository

    constructor (hubRepository: HubRepository)
      ensures this.hubRepository == hubRepository
    {
      this.hubRepository := hubRepository;
    }

    /** `findAllActive`: exactly the stored hubs whose `deletedAt` is absent, each once. */
    method FindAllActive() returns (active: seq<HubRow>)
      requires hubRepository.Valid()
      ensures Elements(active) == ActiveHubs(hubRepository.hubs)
      ensures IdsOf(active) == ActiveIds(hubRepository.hubs)
      ensures DistinctIds(active)
    {
      active := hubRepository.FindAllByDeletedAtIsNull();
      ghost var hubs := hubRepository.hubs;
      forall h | h in ActiveHubs(hubs)
        ensures h in Elements(active)
      {
        var k :| k in hubs && hubs[k] == h;
        assert k in ActiveIds(hubs);
        var i :| 0 <= i < |active| && active[i].id == k;
        assert active[i] == h;
      }
    }
  }
}
