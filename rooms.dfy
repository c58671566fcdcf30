/**
 * The room state a browser holds (the body of `GET /api/rooms` and
 * `GET /api/rooms/:roomId`) and the `room_update` push payload, together
 * with the JavaScript `||` defaults both pages apply to them.
 */
module Rooms {
  import opened Wrappers

  /** `room.liveStatus`: every property may be absent from the snapshot. */
  datatype LiveStatus = LiveStatus(
    roomId: Option<string>,
    currentOccupancy: Option<int>,
    isGhost: bool,
    lastUpdated: Option<string>)

  /** One room of the client state; `liveStatus` may be absent altogether. */
  datatype Room = Room(
    roomId: string,
    capacity: Option<int>,
    liveStatus: Option<LiveStatus>)

  /** The `room_update` payload `{roomId, occupancy, isGhost, capacity?}`. */
  datatype Delta = Delta(
    roomId: string,
    occupancy: int,
    isGhost: bool,
    capacity: Option<int>)

  /** JavaScript truthiness of a possibly missing number: `undefined` and `0` are falsy. */
  predicate Truthy(n: Option<int>) {
    n.Some? && n.value != 0
  }

  /**
   * `a || b` on possibly missing numbers: `a` when it is truthy, `b` otherwise.
   * The result is truthy exactly when one of the operands is.
   */
  function Or(a: Option<int>, b: Option<int>): (r: Option<int>)
    ensures Truthy(r) <==> Truthy(a) || Truthy(b)
    ensures Truthy(a) ==> r == a
    ensures !Truthy(a) ==> r == b
  {
    if Truthy(a) then a else b
  }

  /** Taking the same first operand again changes nothing: `a || (a || b)` is `a || b`. */
  lemma OrAbsorbs(a: Option<int>, b: Option<int>)
    ensures Or(a, Or(a, b)) == Or(a, b)
  {
  }

  /**
   * `n || d` for a number default `d`: the value when truthy, otherwise `d`.
   * A non-zero default makes the result non-zero, whatever `n` is.
   */
  function OrDefault(n: Option<int>, d: int): (r: int)
    ensures d != 0 ==> r != 0
    ensures Truthy(n) ==> Some(r) == n
    ensures !Truthy(n) ==> r == d
  {
    if Truthy(n) then n.value else d
  }

  /** `room.liveStatus?.isGhost`, read as a truth value. */
  predicate GhostFlag(room: Room) {
    room.liveStatus.Some? && room.liveStatus.value.isGhost
  }

  /** `room.liveStatus?.currentOccupancy || 0`. */
  function OccupancyOrZero(room: Room): (occ: int)
    ensures occ == 0 <==> room.liveStatus.None? || !Truthy(room.liveStatus.value.currentOccupancy)
    ensures occ != 0 ==> Some(occ) == room.liveStatus.value.currentOccupancy
  {
    OrDefault(if room.liveStatus.Some? then room.liveStatus.value.currentOccupancy else None, 0)
  }

  /** The room capacity assumed when the snapshot has none (or has 0). */
  const DefaultCapacity: int := 50

  /** `room.capacity || 50`: never zero, so the half-capacity threshold is always defined. */
  function CapacityOrDefault(room: Room): (cap: int)
    ensures cap != 0
    ensures Truthy(room.capacity) ==> Some(cap) == room.capacity
    ensures !Truthy(room.capacity) ==> cap == DefaultCapacity
  {
    OrDefault(room.capacity, DefaultCapacity)
  }
}
