/** Identifiers, opaque scalar values and the error taxonomy shared by the hub service model. */
module Common {

  /** 2^128: a `java.util.UUID` is a 128-bit value. */
  const UUID_BOUND: int := 0x1_0000_0000_0000_0000_0000_0000_0000_0000

  /** A `java.util.UUID`, as the 128-bit number formed by its most and least significant halves. */
  type Uuid = v: int | 0 <= v < UUID_BOUND

  /** The `HubId` value object: an immutable wrapper around a UUID. */
  datatype HubId = HubId(uuid: Uuid) {
    function ToUuid(): Uuid { uuid }
  }

  /** A Java `Double` that the core only copies, kept as its IEEE-754 bit pattern. */
  datatype JDouble = JDouble(bits: bv64)

  /** A point in time read from the clock; the core only stores it. */
  type Timestamp = int

  /**
   * What a core operation can throw: `PermissionException`, the `IllegalArgumentException`
   * of a missing member or of a missing hub, the `NullPointerException` of `requireNonNull`,
   * and a failure of the route calculator.
   */
  datatype HubError =
    | PermissionDenied
    | MemberNotFound(memberId: Uuid)
    | NullArgument
    | HubNotFound(hubId: Uuid)
    | RouteComputationFailed
}
