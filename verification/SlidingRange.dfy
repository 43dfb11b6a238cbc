// The range of the sliding-sync room list, extended as rooms arrive.
module SlidingRange {

  const INITIAL_ROOM_LIST_SIZE: nat := 100
  const EXTEND_WITHIN: nat := 5
  const EXTEND_BY: nat := 50

  // The range end after one room event that leaves `rooms` rooms.
  function Extended(end: nat, rooms: nat): nat {
    if rooms >= end + 1 - EXTEND_WITHIN then end + EXTEND_BY else end
  }

  class RoomList {
    var slidingSyncListRangeEnd: nat
    var syncing: bool
    // The end of the range last requested from the server.
    var requested: nat

    // `startSyncing` with sliding sync.
    constructor ()
      ensures syncing && slidingSyncListRangeEnd == INITIAL_ROOM_LIST_SIZE - 1 == requested
    {
      syncing := true;
      slidingSyncListRangeEnd := INITIAL_ROOM_LIST_SIZE - 1;
      requested := INITIAL_ROOM_LIST_SIZE - 1;
    }

    // `extendSlidingSyncListIfNearLimit`
    method ExtendIfNearLimit(roomCount: nat)
      requires slidingSyncListRangeEnd >= INITIAL_ROOM_LIST_SIZE - 1
      modifies this
      ensures syncing == old(syncing)
      ensures slidingSyncListRangeEnd ==
              if syncing then Extended(old(slidingSyncListRangeEnd), roomCount) else old(slidingSyncListRangeEnd)
      ensures syncing && old(requested) == old(slidingSyncListRangeEnd) ==> requested == slidingSyncListRangeEnd
    {
      if !syncing {
        return;
      }
      var limit := slidingSyncListRangeEnd + 1;
      if roomCount < limit - EXTEND_WITHIN {
        return;
      }
      slidingSyncListRangeEnd := slidingSyncListRangeEnd + EXTEND_BY;
      requested := slidingSyncListRangeEnd;
    }
  }

  // The range end after `n` room events, each adding one room to `initial` rooms.
  function EndAfter(initial: nat, n: nat): (end: nat)
    ensures end >= INITIAL_ROOM_LIST_SIZE - 1
  {
    if n == 0 then INITIAL_ROOM_LIST_SIZE - 1 else Extended(EndAfter(initial, n - 1), initial + n)
  }

  predicate Headroom(initial: nat, n: nat) {
    initial + n < EndAfter(initial, n) + 1 - EXTEND_WITHIN
  }

  lemma {:induction false} EndIsStepped(initial: nat, n: nat) returns (k: nat)
    ensures EndAfter(initial, n) == 99 + 50 * k && k <= n
  {
    if n == 0 {
      k := 0;
    } else {
      var j := EndIsStepped(initial, n - 1);
      k := if EndAfter(initial, n) == EndAfter(initial, n - 1) then j else j + 1;
    }
  }

  // With fewer than 95 rooms at the start, the count stays clear of the limit after every event.
  lemma {:induction false} HeadroomStays(initial: nat, n: nat)
    requires initial < 95
    ensures Headroom(initial, n)
  {
    if n > 0 {
      HeadroomStays(initial, n - 1);
    }
  }

  // While there is no headroom every event extends the range.
  lemma {:induction false} CatchingUp(initial: nat, n: nat)
    requires initial >= 95
    ensures EndAfter(initial, n) <= 99 + 50 * n
    ensures initial - 95 >= 49 * n ==> EndAfter(initial, n) == 99 + 50 * n && !Headroom(initial, n)
    ensures initial - 95 < 49 * n ==> Headroom(initial, n)
  {
    if n > 0 {
      CatchingUp(initial, n - 1);
    }
  }

  // How often the range was extended: each event extends it once at most, and only as far as the rooms need.
  lemma {:induction false} ExtendedNoMoreThanNeeded(initial: nat, n: nat)
    ensures var rooms := initial + n;
            var needed := if n == 0 || rooms < 95 then 0 else (rooms - 95) / 50 + 1;
            EndAfter(initial, n) == 99 + 50 * if needed < n then needed else n
  {
    if n > 0 {
      ExtendedNoMoreThanNeeded(initial, n - 1);
    }
  }

  // The number of events it takes to have headroom.
  function Needed(initial: nat): nat {
    if initial < 95 then 0 else (initial - 94 + 48) / 49
  }

  // The headroom is there exactly from that event on, which is ceil((initial - 94) / 49) from 95 rooms
  // on.
  lemma HeadroomExactlyFrom(initial: nat, n: nat)
    ensures Headroom(initial, n) <==> n >= Needed(initial)
  {
    if initial < 95 {
      HeadroomStays(initial, n);
    } else {
      CatchingUp(initial, n);
    }
  }
}
