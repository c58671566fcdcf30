/**
 * The Dashboard page: the four-way room status shown on each card and the
 * merge of a `room_update` push into the list of rooms.
 */
module Dashboard {
  import opened Wrappers
  import opened Rooms

  /** The status strings `getStatus` returns. */
  datatype Status = Ghost | Available | Partial | Occupied {
    function Label(): (s: string)
      ensures s in {"ghost", "available", "partial", "occupied"}
    {
      match this
      case Ghost => "ghost"
      case Available => "available"
      case Partial => "partial"
      case Occupied => "occupied"
    }
  }

  /** Different statuses have different strings, so a lookup keyed by the string tells them apart. */
  lemma LabelInjective(a: Status, b: Status)
    ensures a.Label() == b.Label() ==> a == b
  {
  }

  /**
   * `getStatus(room)`. The source compares `occupancy < capacity / 2` with
   * real division; over integers that is `2 * occupancy < capacity`, and the
   * contract states it in the source's real-valued form.
   */
  function GetStatus(room: Room): (s: Status)
    ensures GhostFlag(room) ==> s == Ghost
    ensures !GhostFlag(room) && OccupancyOrZero(room) == 0 ==> s == Available
    ensures s == Partial <==>
      !GhostFlag(room) && OccupancyOrZero(room) != 0
      && (OccupancyOrZero(room) as real) < (CapacityOrDefault(room) as real) / 2.0
    ensures s == Occupied <==>
      !GhostFlag(room) && OccupancyOrZero(room) != 0
      && (OccupancyOrZero(room) as real) >= (CapacityOrDefault(room) as real) / 2.0
  {
    if GhostFlag(room) then Ghost
    else
      var occupancy := OccupancyOrZero(room);
      var capacity := CapacityOrDefault(room);
      if occupancy == 0 then Available
      else if 2 * occupancy < capacity then Partial
      else Occupied
  }

  /** The arrow function passed to `prevRooms.map` for one delta. */
  function UpdateRoom(room: Room, d: Delta): (r: Room)
    ensures room.roomId != d.roomId ==> r == room
    ensures r.roomId == room.roomId
    ensures room.roomId == d.roomId ==>
      && r.liveStatus.Some?
      && r.liveStatus.value.currentOccupancy == Some(d.occupancy)
      && r.liveStatus.value.isGhost == d.isGhost
      && (room.liveStatus.Some? ==>
            r.liveStatus.value.roomId == room.liveStatus.value.roomId
            && r.liveStatus.value.lastUpdated == room.liveStatus.value.lastUpdated)
      && (room.liveStatus.None? ==>
            r.liveStatus.value.roomId.None? && r.liveStatus.value.lastUpdated.None?)
      && (Truthy(d.capacity) ==> r.capacity == d.capacity)
      && (!Truthy(d.capacity) ==> r.capacity == room.capacity)
  {
    if room.roomId == d.roomId then
      // `{...room.liveStatus}` of a missing live status is the empty object.
      var base := room.liveStatus.GetOr(LiveStatus(None, None, false, None));
      room.(liveStatus := Some(base.(currentOccupancy := Some(d.occupancy), isGhost := d.isGhost)),
            capacity := Or(d.capacity, room.capacity))
    else
      room
  }

  /** `handleUpdate`'s state updater: `prevRooms.map(...)`. */
  function HandleUpdate(rooms: seq<Room>, d: Delta): (r: seq<Room>)
    ensures |r| == |rooms|
    ensures forall i :: 0 <= i < |rooms| ==> r[i] == UpdateRoom(rooms[i], d)
  {
    seq(|rooms|, i requires 0 <= i < |rooms| => UpdateRoom(rooms[i], d))
  }

  /** The merge keeps the list's length and order and touches no room of another id. */
  lemma HandleUpdateIsolation(rooms: seq<Room>, d: Delta)
    ensures |HandleUpdate(rooms, d)| == |rooms|
    ensures forall i :: 0 <= i < |rooms| ==> HandleUpdate(rooms, d)[i].roomId == rooms[i].roomId
    ensures forall i :: 0 <= i < |rooms| && rooms[i].roomId != d.roomId ==> HandleUpdate(rooms, d)[i] == rooms[i]
  {
  }

  /** A delta naming no room of the list leaves the list as it was. */
  lemma HandleUpdateUnknownRoom(rooms: seq<Room>, d: Delta)
    requires forall i :: 0 <= i < |rooms| ==> rooms[i].roomId != d.roomId
    ensures HandleUpdate(rooms, d) == rooms
  {
  }

  /** Applying the same delta twice gives the list that applying it once gives. */
  lemma HandleUpdateIdempotent(rooms: seq<Room>, d: Delta)
    ensures HandleUpdate(HandleUpdate(rooms, d), d) == HandleUpdate(rooms, d)
  {
  }

  /** Deltas for two different rooms can be applied in either order. */
  lemma HandleUpdateCommutes(rooms: seq<Room>, d1: Delta, d2: Delta)
    requires d1.roomId != d2.roomId
    ensures HandleUpdate(HandleUpdate(rooms, d1), d2) == HandleUpdate(HandleUpdate(rooms, d2), d1)
  {
  }

  /** After the merge, a matching room's status is decided by the delta's occupancy and ghost flag. */
  lemma StatusAfterUpdate(room: Room, d: Delta)
    requires room.roomId == d.roomId
    ensures d.isGhost ==> GetStatus(UpdateRoom(room, d)) == Ghost
    ensures !d.isGhost && d.occupancy == 0 ==> GetStatus(UpdateRoom(room, d)) == Available
    ensures !d.isGhost && d.occupancy != 0 ==>
      GetStatus(UpdateRoom(room, d)) ==
        (if 2 * d.occupancy < OrDefault(Or(d.capacity, room.capacity), DefaultCapacity) then Partial else Occupied)
  {
  }

  /** Room 101 shown at 5 of 50 receives `{occupancy: 30, isGhost: false, capacity: 50}`: it becomes occupied (30 >= 25). */
  lemma PushMakesRoomOccupied()
    ensures
      var before := Room("101", Some(50), Some(LiveStatus(Some("101"), Some(5), false, None)));
      var after := HandleUpdate([before], Delta("101", 30, false, Some(50)));
      && GetStatus(before) == Partial
      && after[0].liveStatus.value.currentOccupancy == Some(30)
      && after[0].capacity == Some(50)
      && GetStatus(after[0]) == Occupied
  {
  }

  /** Room 205 receives `{occupancy: 0, isGhost: true}`: a ghost, although nobody is there. */
  lemma GhostPushWinsOverEmptyRoom(room: Room)
    requires room.roomId == "205"
    ensures GetStatus(HandleUpdate([room], Delta("205", 0, true, None))[0]) == Ghost
  {
  }
}
