/** The hub store (`HubRepository`): hub states keyed by their id, and its query filters. */
module HubStore {
  import opened Wrappers
  import opened Common
  import opened Text
  import opened HubAggregate

  /** Every stored hub sits under its own id. */
  predicate KeyedById(hubs: map<HubId, HubRow>) {
    forall k :: k in hubs ==> hubs[k].id == k
  }

  /** The ids of the hubs in a list. */
  function IdsOf(rs: seq<HubRow>): set<HubId> {
    set i | 0 <= i < |rs| :: rs[i].id
  }

  lemma IdsOfAppend(rs: seq<HubRow>, h: HubRow)
    ensures IdsOf(rs + [h]) == IdsOf(rs) + {h.id}
  {
    var xs := rs + [h];
    assert xs[|rs|].id == h.id;
    forall id | id in IdsOf(rs)
      ensures id in IdsOf(xs)
    {
      var i :| 0 <= i < |rs| && rs[i].id == id;
      assert xs[i] == rs[i];
    }
  }

  /** No hub appears twice in a list. */
  predicate DistinctIds(rs: seq<HubRow>) {
    forall i, j :: 0 <= i < j < |rs| ==> rs[i].id != rs[j].id
  }

  /** The ids of the stored hubs that are not soft-deleted. */
  function ActiveIds(hubs: map<HubId, HubRow>): set<HubId> {
    set k | k in hubs && hubs[k].IsActive()
  }

  /** `findById`. */
  function FindById(hubs: map<HubId, HubRow>, id: HubId): (r: Option<HubRow>)
    ensures r.Some? <==> id in hubs
    ensures r.Some? ==> r.value == hubs[id]
  {
    if id in hubs then Some(hubs[id]) else None
  }

  /** The keyword condition of `search`: no keyword, or a substring of an upper-cased name, street or detail. */
  predicate KeywordMatches(h: HubRow, keyword: Option<string>) {
    || keyword.None?
    || Contains(Upper(h.name), keyword.value)
    || Contains(Upper(h.address.street), keyword.value)
    || Contains(Upper(h.address.detail), keyword.value)
  }

  /** The deletion condition of `search`. */
  predicate DeletionMatches(h: HubRow, includeDeleted: bool) {
    includeDeleted || h.IsActive()
  }

  /** `search` without paging and sorting: the stored hubs meeting both conditions. */
  function Search(hubs: map<HubId, HubRow>, keyword: Option<string>, includeDeleted: bool): set<HubRow> {
    set h | h in hubs.Values && KeywordMatches(h, keyword) && DeletionMatches(h, includeDeleted)
  }

  /** Without a keyword no text filter applies. */
  lemma SearchWithoutKeyword(hubs: map<HubId, HubRow>, includeDeleted: bool)
    ensures forall h :: h in Search(hubs, None, includeDeleted) <==> h in hubs.Values && DeletionMatches(h, includeDeleted)
    ensures includeDeleted ==> Search(hubs, None, true) == hubs.Values
  {
  }

  /** With a keyword, a hub matches exactly when its upper-cased name, street or detail contains it. */
  lemma SearchWithKeyword(hubs: map<HubId, HubRow>, k: string, includeDeleted: bool, h: HubRow)
    ensures h in Search(hubs, Some(k), includeDeleted) <==>
      && h in hubs.Values && DeletionMatches(h, includeDeleted)
      && (Contains(Upper(h.name), k) || Contains(Upper(h.address.street), k) || Contains(Upper(h.address.detail), k))
  {
  }

  /** A keyword that no hub matches gives an empty result. */
  lemma SearchNoMatch(hubs: map<HubId, HubRow>, k: string, includeDeleted: bool)
    requires forall h :: h in hubs.Values ==> !KeywordMatches(h, Some(k))
    ensures Search(hubs, Some(k), includeDeleted) == {}
  {
  }

  /** Excluding deleted hubs leaves only active ones; including them only adds hubs. */
  lemma SearchDeletionFilter(hubs: map<HubId, HubRow>, keyword: Option<string>)
    ensures forall h :: h in Search(hubs, keyword, false) ==> h.IsActive()
    ensures Search(hubs, keyword, false) <= Search(hubs, keyword, true)
    ensures forall h :: h in Search(hubs, keyword, true) && h.IsActive() ==> h in Search(hubs, keyword, false)
  {
  }

  /**
   * The store compares against upper-cased columns, so a keyword that still holds a lower-case
   * letter matches nothing; the query service upper-cases keywords before they get here.
   */
  lemma LowerCaseKeywordMatchesNothing(hubs: map<HubId, HubRow>, k: string, j: int, includeDeleted: bool)
    requires 0 <= j < |k| && IsLowerAscii(k[j])
    ensures Search(hubs, Some(k), includeDeleted) == {}
  {
    forall h | h in hubs.Values
      ensures !KeywordMatches(h, Some(k))
    {
      UpperContainsNoLowerCase(h.name, k, j);
      UpperContainsNoLowerCase(h.address.street, k, j);
      UpperContainsNoLowerCase(h.address.detail, k, j);
    }
  }

  /** After saving a hub it is found under its id; an existing entry is replaced, the others kept. */
  lemma SaveThenFind(hubs: map<HubId, HubRow>, h: HubRow, other: HubId)
    ensures FindById(hubs[h.id := h], h.id) == Some(h)
    ensures other != h.id ==> FindById(hubs[h.id := h], other) == FindById(hubs, other)
    ensures KeyedById(hubs) ==> KeyedById(hubs[h.id := h])
  {
  }

  /** The store of hubs. */
  class HubRepository {
    var hubs: map<HubId, HubRow>

    ghost predicate Valid()
      reads this
    {
      KeyedById(hubs)
    }

    constructor ()
      ensures Valid() && hubs == map[]
    {
      hubs := map[];
    }

    /** `save`: inserts the hub, or replaces the stored one with the same id. */
    method Save(hub: Hub)
      requires Valid()
      modifies this
      ensures Valid()
      ensures hubs == old(hubs)[hub.id := hub.Row()]
    {
      hubs := hubs[hub.id := hub.Row()];
    }

    /**
     * `findAllByDeletedAtIsNull`: every active stored hub exactly once, in an order the store
     * chooses; nothing else.
     */
    method FindAllByDeletedAtIsNull() returns (active: seq<HubRow>)
      requires Valid()
      ensures forall i :: 0 <= i < |active| ==>
        active[i].id in hubs && hubs[active[i].id] == active[i] && active[i].IsActive()
      ensures IdsOf(active) == ActiveIds(hubs)
      ensures DistinctIds(active)
    {
      var remaining := hubs.Keys;
      active := [];
      while remaining != {}
        invariant remaining <= hubs.Keys
        invariant forall i :: 0 <= i < |active| ==>
          active[i].id in hubs && hubs[active[i].id] == active[i] && active[i].IsActive() && active[i].id !in remaining
        invariant IdsOf(active) == ActiveIds(hubs) - remaining
        invariant DistinctIds(active)
        decreases remaining
      {
        var k :| k in remaining;
        if hubs[k].IsActive() {
          IdsOfAppend(active, hubs[k]);
          active := active + [hubs[k]];
        }
        remaining := remaining - {k};
      }
    }
  }
}
