/**
 * BookingRepository: the derived queries Spring Data builds from the method
 * names, as filters over the stored bookings.
 */
module BookingRepository {
  import opened Calendar
  import opened RoomModel
  import opened Entities

  /**
   * existsByRoomIdAndCheckInDateLessThanEqualAndCheckOutDateGreaterThanEqual(roomId, a, b):
   * the parameters bind in order, so a bounds the check-in date from above and b
   * bounds the check-out date from below. No status is filtered.
   */
  predicate ExistsByRoomIdAndCheckInLeAndCheckOutGe(bookings: map<BookingId, Booking>, roomId: RoomId, a: Day, b: Day) {
    exists id :: id in bookings && bookings[id].roomId == roomId && bookings[id].checkIn <= a && bookings[id].checkOut >= b
  }

  /** findByRoomId. */
  function FindByRoomId(bookings: map<BookingId, Booking>, roomId: RoomId): (found: set<Booking>)
    ensures forall id :: id in bookings ==> (bookings[id] in found <==> bookings[id].roomId == roomId)
    ensures forall b :: b in found ==> b.roomId == roomId && exists id :: id in bookings && bookings[id] == b
  {
    set id | id in bookings && bookings[id].roomId == roomId :: bookings[id]
  }

  /** findByUserId. */
  function FindByUserId(bookings: map<BookingId, Booking>, userId: UserId): (found: set<Booking>)
    ensures forall id :: id in bookings ==> (bookings[id] in found <==> bookings[id].userId == userId)
    ensures forall b :: b in found ==> b.userId == userId && exists id :: id in bookings && bookings[id] == b
  {
    set id | id in bookings && bookings[id].userId == userId :: bookings[id]
  }

  /** findAll. */
  function FindAll(bookings: map<BookingId, Booking>): (found: set<Booking>)
    ensures forall id :: id in bookings ==> bookings[id] in found
    ensures forall b :: b in found ==> exists id :: id in bookings && bookings[id] == b
  {
    set id | id in bookings :: bookings[id]
  }

  // ---------------------------------------------------------------------------
  // Properties

  /** The exists-query holds exactly when one of the room's bookings spans [b, a] (closed). */
  lemma ExistsMeansSpanningBookingOfRoom(bookings: map<BookingId, Booking>, roomId: RoomId, a: Day, b: Day)
    ensures ExistsByRoomIdAndCheckInLeAndCheckOutGe(bookings, roomId, a, b)
        <==> exists bk :: bk in FindByRoomId(bookings, roomId) && bk.checkIn <= a && bk.checkOut >= b
  {
    if ExistsByRoomIdAndCheckInLeAndCheckOutGe(bookings, roomId, a, b) {
      var id :| id in bookings && bookings[id].roomId == roomId && bookings[id].checkIn <= a && bookings[id].checkOut >= b;
      assert bookings[id] in FindByRoomId(bookings, roomId);
    }
  }

  /** Called as (roomId, checkOut, checkIn), the exists-query catches every half-open overlap, of any status. */
  lemma {:induction false} OverlapImpliesExists(bookings: map<BookingId, Booking>, id: BookingId, roomId: RoomId, checkIn: Day, checkOut: Day)
    requires id in bookings && Overlaps(bookings[id], roomId, checkIn, checkOut)
    ensures ExistsByRoomIdAndCheckInLeAndCheckOutGe(bookings, roomId, checkOut, checkIn)
  {
    assert bookings[id].checkIn <= checkOut && bookings[id].checkOut >= checkIn;
  }

  /** A CANCELLED booking alone makes the exists-query true: it applies no status filter. */
  lemma CancelledBookingCountsForExists(b: Booking)
    requires b.status == Cancelled && b.checkIn < b.checkOut
    ensures ExistsByRoomIdAndCheckInLeAndCheckOutGe(map[b.id := b], b.roomId, b.checkOut, b.checkIn)
  {
    assert b.id in map[b.id := b];
  }

  /** The bookings of different rooms (or users) are disjoint, and together they are all bookings. */
  lemma FindByRoomIdPartitions(bookings: map<BookingId, Booking>, r1: RoomId, r2: RoomId)
    ensures r1 != r2 ==> FindByRoomId(bookings, r1) * FindByRoomId(bookings, r2) == {}
    ensures FindByRoomId(bookings, r1) <= FindAll(bookings)
  {
  }

  lemma FindByUserIdPartitions(bookings: map<BookingId, Booking>, u1: UserId, u2: UserId)
    ensures u1 != u2 ==> FindByUserId(bookings, u1) * FindByUserId(bookings, u2) == {}
    ensures FindByUserId(bookings, u1) <= FindAll(bookings)
  {
  }
}
