/**
 * The room-occupancy vector: one flag per room, index `i` is room `i + 1`.
 */
module Rooms {

  /** `TOTAL_ROOMS`: the size of the vector at start. */
  const TotalRooms: nat := 100

  function FreshRooms(): (r: seq<bool>)
    ensures |r| == TotalRooms && forall i :: 0 <= i < |r| ==> !r[i]
  {
    seq(TotalRooms, _ => false)
  }

  /** `k` is the lowest index of a free room. */
  predicate LowestFree(rooms: seq<bool>, k: int)
  {
    0 <= k < |rooms| && !rooms[k] && forall i :: 0 <= i < k ==> rooms[i]
  }

  /** `findAvailableRoom`: the lowest free index, or -1 when every room is occupied. */
  method FindAvailableRoom(rooms: seq<bool>) returns (r: int)
    ensures -1 <= r < |rooms|
    ensures r == -1 <==> forall i :: 0 <= i < |rooms| ==> rooms[i]
    ensures r >= 0 ==> !rooms[r] && forall i :: 0 <= i < r ==> rooms[i]
  {
    var i := 0;
    while i < |rooms|
      invariant 0 <= i <= |rooms|
      invariant forall j :: 0 <= j < i ==> rooms[j]
    {
      if !rooms[i] {
        return i;
      }
      i := i + 1;
    }
    return -1;
  }

  /** Sets the flag of room `roomNumber` when `roomNumber - 1` is an index of the vector; otherwise nothing. */
  function MarkRoom(rooms: seq<bool>, roomNumber: int, flag: bool): (r: seq<bool>)
    ensures |r| == |rooms|
    ensures forall i :: 0 <= i < |rooms| && i != roomNumber - 1 ==> r[i] == rooms[i]
    ensures 0 < roomNumber <= |rooms| ==> r[roomNumber - 1] == flag
  {
    if 0 <= roomNumber - 1 < |rooms| then rooms[roomNumber - 1 := flag] else rooms
  }

  /** `rooms.resize(n, false)`: keeps the first flags, new rooms are free. */
  function Resize(rooms: seq<bool>, n: nat): (r: seq<bool>)
    ensures |r| == n
    ensures forall i :: 0 <= i < n && i < |rooms| ==> r[i] == rooms[i]
    ensures forall i :: |rooms| <= i < n ==> !r[i]
  {
    seq(n, i requires 0 <= i < n => if i < |rooms| then rooms[i] else false)
  }
}
