/**
 * The route entity (`HubRoute`): one directed edge of the hub graph, its null-checking factory,
 * its id-based equality and hash code, and the inherited soft delete.
 */
module Routes {
  import opened Wrappers
  import opened Common

  /** A Java `int`. */
  type Int32 = x: int | -0x8000_0000 <= x < 0x8000_0000

  /** An id handed out by the store's identity column; the first one is 1. */
  type RouteId = nat

  /** The state of one route; `id` is `None` until the store assigns one. */
  datatype RouteRow = RouteRow(
    id: Option<RouteId>,
    source: HubId,
    target: HubId,
    distanceKm: JDouble,
    durationMinutes: Int32,
    deletedAt: Option<Timestamp>,
    deletedBy: Option<string>)
  {
    /** A route is active while it has not been soft-deleted. */
    predicate IsActive() {
      deletedAt.None?
    }

    /** The route starts or ends at hub `h`. */
    predicate Touches(h: HubId) {
      source == h || target == h
    }
  }

  /** `create`: every argument must be non-null; the store has not yet given the route an id. */
  function Create(
    source: Option<HubId>, target: Option<HubId>,
    distanceKm: Option<JDouble>, durationMinutes: Option<Int32>): (r: Result<RouteRow, HubError>)
    ensures r.Success? <==> source.Some? && target.Some? && distanceKm.Some? && durationMinutes.Some?
    ensures r.Failure? ==> r.error == NullArgument
    ensures r.Success? ==>
      && r.value.source == source.value && r.value.target == target.value
      && r.value.distanceKm == distanceKm.value && r.value.durationMinutes == durationMinutes.value
      && r.value.id.None? && r.value.IsActive() && r.value.deletedBy.None?
  {
    if source.None? || target.None? || distanceKm.None? || durationMinutes.None? then Failure(NullArgument)
    else Success(RouteRow(None, source.value, target.value, distanceKm.value, durationMinutes.value, None, None))
  }

  /** `create` accepts a route from a hub to itself. */
  lemma CreateAcceptsSelfRoute(h: HubId, d: JDouble, m: Int32)
    ensures Create(Some(h), Some(h), Some(d), Some(m)).Success?
    ensures Create(Some(h), Some(h), Some(d), Some(m)).value.source == Create(Some(h), Some(h), Some(d), Some(m)).value.target
  {
  }

  /** The inherited soft delete: stamped with the clock and the actor, every other field kept. */
  function SoftDeleted(r: RouteRow, deletedBy: string, now: Timestamp): (d: RouteRow)
    ensures !d.IsActive() && d.deletedBy == Some(deletedBy) && d.deletedAt == Some(now)
    ensures d.(deletedAt := r.deletedAt, deletedBy := r.deletedBy) == r
  {
    r.(deletedAt := Some(now), deletedBy := Some(deletedBy))
  }

  /** `(int) x` of a non-negative number below 2^32: the same 32 bits read as a signed `int`. */
  function ToInt32(x: int): (r: Int32)
    requires 0 <= x < 0x1_0000_0000
    ensures r % 0x1_0000_0000 == x
  {
    if x < 0x8000_0000 then x else x - 0x1_0000_0000
  }

  /** Java `int` addition: the sum brought back into range by wrapping around. */
  function WrapInt32(x: int): (r: Int32)
    ensures (r - x) % 0x1_0000_0000 == 0
  {
    (x + 0x8000_0000) % 0x1_0000_0000 - 0x8000_0000
  }

  function Pow2(n: nat): (p: nat)
    ensures p > 0
  {
    if n == 0 then 1 else 2 * Pow2(n - 1)
  }

  lemma {:induction false} Pow2Add(a: nat, b: nat)
    ensures Pow2(a + b) == Pow2(a) * Pow2(b)
    decreases a
  {
    if a > 0 {
      Pow2Add(a - 1, b);
    }
  }

  lemma Pow2IntWidth()
    ensures Pow2(32) == 0x1_0000_0000
  {
    assert Pow2(8) == 0x100;
    Pow2Add(8, 8);
    Pow2Add(16, 16);
  }

  /** The exclusive or of the lowest `n` bits of `a` and `b`. */
  function XorBits(a: nat, b: nat, n: nat): nat {
    if n == 0 then 0 else (if a % 2 != b % 2 then 1 else 0) + 2 * XorBits(a / 2, b / 2, n - 1)
  }

  /** Exclusive or with zero keeps the lowest `n` bits. */
  lemma {:induction false} XorBitsZero(a: nat, n: nat)
    ensures XorBits(a, 0, n) == a % Pow2(n)
  {
    if n > 0 {
      XorBitsZero(a / 2, n - 1);
      var p := Pow2(n - 1);
      var q := a / 2;
      var k := q / p;
      var m := q % p;
      assert q == p * k + m;
      assert a == (2 * p) * k + (2 * m + a % 2);
      ModOfDecomposition(a, 2 * p, k, 2 * m + a % 2);
    }
  }

  lemma ModOfDecomposition(a: int, d: int, k: int, m: int)
    requires 0 <= m < d && a == d * k + m
    ensures a % d == m
  {
    var q, r := a / d, a % d;
    assert d * (q - k) == m - r;
    if q - k >= 1 {
      MulAtLeast(d, q - k);
    } else if k - q >= 1 {
      MulAtLeast(d, k - q);
    }
  }

  lemma MulAtLeast(d: int, x: int)
    requires d > 0 && x >= 1
    ensures d * x >= d
  {
  }

  /**
   * `Long.hashCode`: the value's 64 two's-complement bits, the high half exclusive-or'ed into the
   * low half, cast to `int`.
   */
  function LongHashCode(v: int): Int32 {
    var u := v % 0x1_0000_0000_0000_0000;
    ToInt32(XorBits(u % 0x1_0000_0000, u / 0x1_0000_0000, 32) % 0x1_0000_0000)
  }

  /** `Objects.hash(id)`: `31 * 1 + (id == null ? 0 : id.hashCode())` in `int` arithmetic. */
  function IdHash(id: Option<RouteId>): Int32 {
    WrapInt32(31 + (match id case None => 0 case Some(v) => LongHashCode(v)))
  }

  /** An id below 2^31 - 31 hashes to itself plus 31; a route without an id hashes to 31. */
  lemma IdHashOfSmallId(v: RouteId)
    ensures IdHash(None) == 31
    ensures v < 0x8000_0000 - 31 ==> IdHash(Some(v)) == 31 + v
  {
    if v < 0x8000_0000 - 31 {
      var u := v % 0x1_0000_0000_0000_0000;
      ModOfDecomposition(v, 0x1_0000_0000_0000_0000, 0, v);
      ModOfDecomposition(u, 0x1_0000_0000, 0, v);
      assert u / 0x1_0000_0000 == 0;
      XorBitsZero(v, 32);
      Pow2IntWidth();
      var x := XorBits(v, 0, 32);
      assert x == v;
      ModOfDecomposition(x, 0x1_0000_0000, 0, v);
      assert LongHashCode(v) == v;
    }
  }

  /** The route entity; the route engine soft-deletes loaded routes through it. */
  class HubRoute {
    var id: Option<RouteId>
    var source: HubId
    var target: HubId
    var distanceKm: JDouble
    var durationMinutes: Int32
    var deletedAt: Option<Timestamp>
    var deletedBy: Option<string>

    /** The entity's state as a value. */
    function Row(): RouteRow
      reads this
    {
      RouteRow(id, source, target, distanceKm, durationMinutes, deletedAt, deletedBy)
    }

    /** A route loaded from, or about to be handed to, the store. */
    constructor Load(row: RouteRow)
      ensures Row() == row
    {
      id := row.id;
      source := row.source;
      target := row.target;
      distanceKm := row.distanceKm;
      durationMinutes := row.durationMinutes;
      deletedAt := row.deletedAt;
      deletedBy := row.deletedBy;
    }

    /** The inherited `delete(deletedBy)`, applied in place. */
    method Delete(deletedBy: string, now: Timestamp)
      modifies this
      ensures Row() == SoftDeleted(old(Row()), deletedBy, now)
    {
      this.deletedAt := Some(now);
      this.deletedBy := Some(deletedBy);
    }

    /** `equals`: the same object, or another route with the same non-null id; never `null`. */
    predicate Equals(that: HubRoute?)
      reads this, that
    {
      that != null && (this == that || (id.Some? && id == that.id))
    }

    /** `hashCode`: a function of the id alone. */
    function HashCode(): Int32
      reads this
    {
      IdHash(id)
    }
  }

  /** Equality is reflexive, symmetric and false against `null`. */
  lemma EqualsIsReflexiveAndSymmetric(a: HubRoute, b: HubRoute)
    ensures a.Equals(a)
    ensures a.Equals(b) <==> b.Equals(a)
    ensures !a.Equals(null)
  {
  }

  /** Two distinct route objects are equal exactly when both carry the same id, whatever their other fields. */
  lemma EqualsIsIdEquality(a: HubRoute, b: HubRoute)
    requires a != b
    ensures a.Equals(b) <==> a.id.Some? && a.id == b.id
  {
  }

  /** A route the store has not saved equals only itself, even a copy with identical fields. */
  lemma UnsavedRouteEqualsOnlyItself(a: HubRoute, b: HubRoute)
    requires a.id.None?
    ensures a.Equals(b) <==> a == b
  {
  }

  /** Equal routes have equal hash codes. */
  lemma HashCodeConsistentWithEquals(a: HubRoute, b: HubRoute)
    ensures a.Equals(b) ==> a.HashCode() == b.HashCode()
  {
  }
}
