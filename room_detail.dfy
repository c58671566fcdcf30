/**
 * The RoomDetail page: the page's single room (`null` until the snapshot
 * arrives), the merge of a `room_update` push into it, and the status badge.
 */
module RoomDetail {
  import opened Wrappers
  import opened Rooms
  import Dashboard

  /**
   * `handleUpdate` for the page showing `pageRoomId`. `now` stands for
   * `new Date().toISOString()` at the moment the push is handled. The updater
   * reads `prev.liveStatus`, so a push for this room that arrives while the
   * room is still `null` throws in the source; callers must not let it.
   */
  function HandleUpdate(pageRoomId: string, room: Option<Room>, d: Delta, now: string): (r: Option<Room>)
    requires d.roomId == pageRoomId ==> room.Some?
    ensures d.roomId != pageRoomId ==> r == room
    ensures d.roomId == pageRoomId ==>
      && r.Some?
      && r.value.roomId == room.value.roomId
      && r.value.liveStatus.Some?
      && r.value.liveStatus.value.currentOccupancy == Some(d.occupancy)
      && r.value.liveStatus.value.isGhost == d.isGhost
      && r.value.liveStatus.value.lastUpdated == Some(now)
      && (room.value.liveStatus.Some? ==> r.value.liveStatus.value.roomId == room.value.liveStatus.value.roomId)
      && (room.value.liveStatus.None? ==> r.value.liveStatus.value.roomId.None?)
      && (Truthy(d.capacity) ==> r.value.capacity == d.capacity)
      && (!Truthy(d.capacity) ==> r.value.capacity == room.value.capacity)
  {
    if d.roomId == pageRoomId then
      var prev := room.value;
      // `{...prev.liveStatus}` of a missing live status is the empty object.
      var base := prev.liveStatus.GetOr(LiveStatus(None, None, false, None));
      Some(prev.(liveStatus := Some(base.(currentOccupancy := Some(d.occupancy),
                                          isGhost := d.isGhost,
                                          lastUpdated := Some(now))),
                 capacity := Or(d.capacity, prev.capacity)))
    else
      room
  }

  /** The badge record `getStatusDisplay` returns; the loading record has no `border`. */
  datatype Display = Display(text: string, color: string, bg: string, border: Option<string>)

  const LoadingDisplay := Display("Loading...", "#ccc", "#f0f0f0", None)
  const GhostDisplay := Display("\U{26A0}\U{FE0F} GHOST BOOKING", "#c05621", "#ffedd5", Some("#f97316"))
  const AvailableDisplay := Display("\U{2705} Available", "#15803d", "#dcfce7", Some("#22c55e"))
  const PartialDisplay := Display("\U{26A1} Partially Filled", "#854d0e", "#fef9c3", Some("#eab308"))
  const OccupiedDisplay := Display("\U{1F534} Occupied", "#b91c1c", "#fee2e2", Some("#ef4444"))

  /** The Dashboard category a badge stands for; `None` for the loading badge. */
  function Category(b: Display): (c: Option<Dashboard.Status>)
    ensures c == None <==> b !in {GhostDisplay, AvailableDisplay, PartialDisplay, OccupiedDisplay}
  {
    if b == GhostDisplay then Some(Dashboard.Ghost)
    else if b == AvailableDisplay then Some(Dashboard.Available)
    else if b == PartialDisplay then Some(Dashboard.Partial)
    else if b == OccupiedDisplay then Some(Dashboard.Occupied)
    else None
  }

  /**
   * `getStatusDisplay()`, its own copy of the Dashboard's decision chain:
   * a missing room is loading, a ghost is flagged before any occupancy test,
   * and `occupancy < capacity / 2` (real division) is `2 * occupancy < capacity`.
   * For a loaded room the badge shows the category the Dashboard picks.
   */
  function StatusDisplay(room: Option<Room>): (b: Display)
    ensures room.None? ==> b == LoadingDisplay
    ensures room.Some? && GhostFlag(room.value) ==> b == GhostDisplay
    ensures room.Some? ==> b != LoadingDisplay && Category(b) == Some(Dashboard.GetStatus(room.value))
  {
    if room.None? then LoadingDisplay
    else
      var isGhost := GhostFlag(room.value);
      var occupancy := OccupancyOrZero(room.value);
      var capacity := CapacityOrDefault(room.value);
      if isGhost then GhostDisplay
      else if occupancy == 0 then AvailableDisplay
      else if 2 * occupancy < capacity then PartialDisplay
      else OccupiedDisplay
  }

  /** A push for another room leaves the page state as it was, loaded or not. */
  lemma OtherRoomIgnored(pageRoomId: string, room: Option<Room>, d: Delta, now: string)
    requires d.roomId != pageRoomId
    ensures HandleUpdate(pageRoomId, room, d, now) == room
  {
  }

  /** Handling the same push twice at the same moment is the same as handling it once. */
  lemma HandleUpdateIdempotent(pageRoomId: string, room: Option<Room>, d: Delta, now: string)
    requires d.roomId == pageRoomId ==> room.Some?
    ensures HandleUpdate(pageRoomId, HandleUpdate(pageRoomId, room, d, now), d, now)
         == HandleUpdate(pageRoomId, room, d, now)
  {
  }

  /** The single-room merge changes the room exactly as the Dashboard's list merge does, plus the time stamp. */
  lemma AgreesWithDashboardMerge(pageRoomId: string, room: Room, d: Delta, now: string)
    requires d.roomId == pageRoomId && room.roomId == pageRoomId
    ensures var r := HandleUpdate(pageRoomId, Some(room), d, now).value;
            var l := Dashboard.UpdateRoom(room, d);
            r.capacity == l.capacity && r.roomId == l.roomId
            && r.liveStatus.value == l.liveStatus.value.(lastUpdated := Some(now))
  {
  }
}
