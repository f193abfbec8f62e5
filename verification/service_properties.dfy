/**
 * Properties of the simpler engine: the order of its checks, the invariants
 * createBooking and cancelBooking keep, and what updateBookingStatus lets
 * through because it accepts any transition.
 */
module ServiceProperties {
  import opened Wrappers
  import opened Calendar
  import opened RoomModel
  import opened Entities
  import opened BookingService

  // ---------------------------------------------------------------------------
  // The order of the checks

  /** A request with a null field fails before any lookup, whatever the stored state. */
  lemma NullInputRejectedFirst(s: Store, s2: Store, req: Request, today: Day, card: bool, card2: bool)
    requires !AllPresent(req)
    ensures CreateBooking(s, req, today, card).Err?
    ensures CreateBooking(s, req, today, card).error in {UserIdRequired, RoomIdRequired, CheckInRequired, CheckOutRequired, PaymentMethodRequired}
    ensures CreateBooking(s, req, today, card) == CreateBooking(s2, req, today, card2)
  {
  }

  /**
   * The date rules run only after the user and the room are found: a request for
   * an unknown user fails with UserNotFound whatever its dates, and one for an
   * unknown room with RoomNotFound.
   */
  lemma LookupsBeforeDates(s: Store, req: Request, today: Day, card: bool)
    requires AllPresent(req)
    ensures req.userId.value !in s.users ==> CreateBooking(s, req, today, card) == Err(UserNotFound)
    ensures req.userId.value in s.users && req.roomId.value !in s.rooms ==> CreateBooking(s, req, today, card) == Err(RoomNotFound)
  {
  }

  /**
   * With the user and room found, the checks come in order: the dates, the
   * room's bookings for those dates, the room's flag, then the payment.
   */
  lemma CreateBookingCheckOrder(s: Store, req: Request, today: Day, card: bool)
    requires AllPresent(req) && req.userId.value in s.users && req.roomId.value in s.rooms
    ensures var p := ParamsOf(req);
            var r := CreateBooking(s, req, today, card);
            var datesOk := ValidateBookingDates(p.checkIn, p.checkOut, today).Pass?;
            var free := IsRoomAvailable(s.bookings, p.roomId, p.checkIn, p.checkOut);
            var user := s.users[p.userId];
            var amount := TotalAmount(s.rooms[p.roomId], p.checkIn, p.checkOut);
            && (!datesOk ==> r.Err? && r.error in {CheckInInPast, CheckInNotBeforeCheckOut, StayTooLong})
            && (datesOk && !free ==> r == Err(RoomNotAvailableForDates))
            && (datesOk && free && !s.rooms[p.roomId].available ==> r == Err(RoomCurrentlyNotAvailable))
            && (datesOk && free && s.rooms[p.roomId].available ==>
                  && (p.paymentMethod == AccountBalance ==>
                        (r.Ok? <==> amount <= user.accountBalance) && (r.Err? ==> r.error == InsufficientBalance))
                  && (p.paymentMethod == CreditCard ==>
                        (r.Ok? <==> card) && (r.Err? ==> r.error == CardPaymentFailed)))
  {
  }

  // ---------------------------------------------------------------------------
  // Invariants

  /** createBooking keeps the store well formed and adds a booking under a fresh id. */
  lemma CreateBookingKeepsWellFormed(s: Store, req: Request, today: Day, card: bool)
    requires WellFormed(s)
    requires CreateBooking(s, req, today, card).Ok?
    ensures WellFormed(CreateBooking(s, req, today, card).value.0)
    ensures CreateBooking(s, req, today, card).value.1.id !in s.bookings
  {
  }

  /**
   * createBooking keeps "no two bookings that hold a room (PENDING or CONFIRMED)
   * overlap" with no hypothesis: its availability test is exact.
   */
  lemma CreateBookingKeepsNoDoubleBooking(s: Store, req: Request, today: Day, card: bool)
    requires WellFormed(s)
    requires NoDoubleBooking(s.bookings, Holding)
    requires CreateBooking(s, req, today, card).Ok?
    ensures NoDoubleBooking(CreateBooking(s, req, today, card).value.0.bookings, Holding)
  {
    var (t, b) := CreateBooking(s, req, today, card).value;
    assert forall id :: id in s.bookings && s.bookings[id].status in Holding ==> !Overlaps(s.bookings[id], b.roomId, b.checkIn, b.checkOut);
    forall i, j | i in t.bookings && j in t.bookings && i != j
                  && t.bookings[i].status in Holding && t.bookings[j].status in Holding
      ensures !Overlaps(t.bookings[j], t.bookings[i].roomId, t.bookings[i].checkIn, t.bookings[i].checkOut)
    {
      if i == b.id {
        assert t.bookings[j] == s.bookings[j];
      } else if j == b.id {
        assert t.bookings[i] == s.bookings[i];
        assert !Overlaps(s.bookings[i], b.roomId, b.checkIn, b.checkOut);
      }
    }
  }

  /** The price of a stay at a valid room is never negative. */
  lemma TotalAmountNonNegative(room: Room, checkIn: Day, checkOut: Day)
    requires ValidRoom(room) && checkIn <= checkOut
    ensures 0.0 <= TotalAmount(room, checkIn, checkOut)
  {
    ValidRoomDiscountedRate(room);
    var rate := room.pricePerNight * (1.0 - room.discountPercentage / 100.0);
    var nights := (checkOut - checkIn) as real;
    assert 0.0 <= nights && 0.0 <= rate;
    assert 0.0 <= nights * rate;
  }

  /** createBooking never debits more than the payer holds, and never stores a negative price. */
  lemma CreateBookingKeepsBalancesAndPrices(s: Store, req: Request, today: Day, card: bool)
    requires BalancesNonNegative(s) && PricesNonNegative(s) && RoomsValid(s)
    requires CreateBooking(s, req, today, card).Ok?
    ensures BalancesNonNegative(CreateBooking(s, req, today, card).value.0)
    ensures PricesNonNegative(CreateBooking(s, req, today, card).value.0)
  {
    var p := ParamsOf(req);
    TotalAmountNonNegative(s.rooms[p.roomId], p.checkIn, p.checkOut);
  }

  /** canCancelBooking, called with the booking's own user as cancelBooking does, checks no ownership at all. */
  lemma OwnershipVacuous(s: Store, today: Day, id: BookingId)
    requires id in s.bookings
    ensures CanCancelBooking(s, today, id, s.bookings[id].userId)
            <==> s.bookings[id].status == Confirmed && today <= s.bookings[id].checkIn
  {
  }

  /** A booking that can be modified can also be cancelled, but not always conversely (check-in day). */
  lemma ModifyImpliesCancel(s: Store, today: Day, id: BookingId, userId: UserId)
    ensures CanModifyBooking(s, today, id, userId) ==> CanCancelBooking(s, today, id, userId)
    ensures CanCancelBooking(s, today, id, userId) && !CanModifyBooking(s, today, id, userId)
            ==> s.bookings[id].checkIn == today
  {
  }

  /** cancelBooking keeps the store well formed and "no double booking", and cancelled bookings stay cancelled. */
  lemma CancelBookingKeepsInvariants(s: Store, today: Day, id: BookingId)
    requires WellFormed(s) && NoDoubleBooking(s.bookings, Holding)
    requires CancelBooking(s, today, id).Ok?
    ensures var t := CancelBooking(s, today, id).value;
            && WellFormed(t)
            && NoDoubleBooking(t.bookings, Holding)
            && forall j :: j in s.bookings && s.bookings[j].status == Cancelled ==> t.bookings[j].status == Cancelled
  {
    var t := CancelBooking(s, today, id).value;
    forall i, j | i in t.bookings && j in t.bookings && i != j
                  && t.bookings[i].status in Holding && t.bookings[j].status in Holding
      ensures !Overlaps(t.bookings[j], t.bookings[i].roomId, t.bookings[i].checkIn, t.bookings[i].checkOut)
    {
      assert t.bookings[i] == s.bookings[i] && t.bookings[j] == s.bookings[j];
    }
  }

  /** Refunds only add to a balance when prices are not negative. */
  lemma CancelBookingKeepsBalancesNonNegative(s: Store, today: Day, id: BookingId)
    requires WellFormed(s) && BalancesNonNegative(s) && PricesNonNegative(s)
    requires CancelBooking(s, today, id).Ok?
    ensures BalancesNonNegative(CancelBooking(s, today, id).value)
  {
  }

  // ---------------------------------------------------------------------------
  // Availability

  /** getAvailableRooms lists a stored room exactly when its flag is set and no booking that holds it overlaps. */
  lemma AvailableRoomsExact(s: Store, checkIn: Day, checkOut: Day, id: RoomId)
    requires WellFormed(s) && id in s.rooms
    ensures s.rooms[id] in GetAvailableRooms(s, checkIn, checkOut)
            <==> s.rooms[id].available
                 && forall j :: j in s.bookings && s.bookings[j].status in Holding ==> !Overlaps(s.bookings[j], id, checkIn, checkOut)
  {
  }

  /** After a booking is made, its room is not available for any overlapping dates. */
  lemma BookedRoomNotAvailable(s: Store, req: Request, today: Day, card: bool, checkIn: Day, checkOut: Day)
    requires CreateBooking(s, req, today, card).Ok?
    requires var b := CreateBooking(s, req, today, card).value.1;
             Overlaps(b, b.roomId, checkIn, checkOut)
    ensures var (t, b) := CreateBooking(s, req, today, card).value;
            !IsRoomAvailable(t.bookings, b.roomId, checkIn, checkOut)
  {
    var (t, b) := CreateBooking(s, req, today, card).value;
    assert b.id in t.bookings && t.bookings[b.id] == b;
  }

  /** A CANCELLED booking never makes its room unavailable, although it satisfies the exists-query. */
  lemma CancelledBookingIgnored(b: Booking)
    requires b.status == Cancelled && b.checkIn < b.checkOut
    ensures IsRoomAvailable(map[b.id := b], b.roomId, b.checkIn, b.checkOut)
  {
  }

  // ---------------------------------------------------------------------------
  // updateBookingStatus accepts any transition

  /** A cancelled booking can be confirmed again; every other field stays as it was. */
  lemma UpdateRevivesCancelled(s: Store, id: BookingId)
    requires id in s.bookings && s.bookings[id].status == Cancelled
    ensures UpdateBookingStatus(s, id, Confirmed).Ok?
    ensures var t := UpdateBookingStatus(s, id, Confirmed).value.0;
            t.bookings[id].status == Confirmed && t.bookings[id].(status := Cancelled) == s.bookings[id]
  {
  }

  /**
   * So a booking paid from the balance can be refunded twice: cancelled,
   * confirmed again, and cancelled again, a booking of 200 returns 400.
   */
  lemma DoubleRefund()
    ensures var user := User(1, "Guest", "guest@example.com", "Guest", "", Customer, 1000.0);
            var booking := Booking(1, 1, 1, 20, 22, 200.0, AccountBalance, Confirmed);
            var s := Store(map[1 := user], map[], map[1 := booking], 2, 2, 2);
            var once := CancelBooking(s, 10, 1);
            && once.Ok? && once.value.users[1].accountBalance == 1200.0
            && var revived := UpdateBookingStatus(once.value, 1, Confirmed);
               && revived.Ok?
               && var twice := CancelBooking(revived.value.0, 10, 1);
                  && twice.Ok? && twice.value.users[1].accountBalance == 1400.0
  {
    var user := User(1, "Guest", "guest@example.com", "Guest", "", Customer, 1000.0);
    var booking := Booking(1, 1, 1, 20, 22, 200.0, AccountBalance, Confirmed);
    var s := Store(map[1 := user], map[], map[1 := booking], 2, 2, 2);
    assert WellFormed(s);
    var once := CancelBooking(s, 10, 1);
    assert once.Ok?;
    var revived := UpdateBookingStatus(once.value, 1, Confirmed);
    assert WellFormed(revived.value.0);
  }

  /**
   * And reviving a cancelled booking can put two bookings that hold a room on the
   * same night: "no double booking" is not kept by updateBookingStatus.
   */
  lemma UpdateBreaksNoDoubleBooking()
    ensures var first := Booking(1, 1, 7, 20, 22, 200.0, CreditCard, Cancelled);
            var second := Booking(2, 1, 7, 21, 23, 200.0, CreditCard, Confirmed);
            var s := Store(map[], map[], map[1 := first, 2 := second], 2, 8, 3);
            && NoDoubleBooking(s.bookings, Holding)
            && UpdateBookingStatus(s, 1, Confirmed).Ok?
            && !NoDoubleBooking(UpdateBookingStatus(s, 1, Confirmed).value.0.bookings, Holding)
  {
    var first := Booking(1, 1, 7, 20, 22, 200.0, CreditCard, Cancelled);
    var second := Booking(2, 1, 7, 21, 23, 200.0, CreditCard, Confirmed);
    var s := Store(map[], map[], map[1 := first, 2 := second], 2, 8, 3);
    var t := UpdateBookingStatus(s, 1, Confirmed).value.0;
    assert t.bookings[1].status == Confirmed && t.bookings[2] == second;
    assert Overlaps(t.bookings[2], t.bookings[1].roomId, t.bookings[1].checkIn, t.bookings[1].checkOut);
  }
}
