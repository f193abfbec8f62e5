/**
 * Properties of the stricter engine: what createBooking checks and in which
 * order, the invariants its operations keep, and how the availability query
 * agrees with the conflict check.
 */
module ImplProperties {
  import opened Wrappers
  import opened Calendar
  import opened Money
  import opened RoomModel
  import opened Entities
  import opened BookingServiceImpl

  /** The statuses of the bookings that hold their room in this engine. */
  const Holding: set<BookingStatus> := {Confirmed}

  // ---------------------------------------------------------------------------
  // Validation and the order of the checks

  /**
   * A request with a null field fails with InvalidBookingData naming a missing
   * field, whatever the stored state, the queries and the card: nothing is
   * looked up before the input is checked.
   */
  lemma NullInputRejectedFirst(q: Queries, s: Store, q2: Queries, s2: Store, req: Request, today: Day, card: bool, card2: bool)
    requires !AllPresent(req)
    ensures CreateBooking(q, s, req, today, card).Err?
    ensures CreateBooking(q, s, req, today, card).error.InvalidBookingData?
    ensures CreateBooking(q, s, req, today, card).error.reason in {UserIdMissing, RoomIdMissing, CheckInMissing, CheckOutMissing, PaymentMethodMissing}
    ensures CreateBooking(q, s, req, today, card) == CreateBooking(q2, s2, req, today, card2)
  {
  }

  /**
   * With every field given, dates outside the rules (check-in before today, no
   * night, more than 30 nights) fail with InvalidBookingData, whatever the state.
   */
  lemma DateRulesRejectedFirst(q: Queries, s: Store, q2: Queries, s2: Store, req: Request, today: Day, card: bool, card2: bool)
    requires AllPresent(req) && !DatesAcceptable(req.checkIn.value, req.checkOut.value, today)
    ensures CreateBooking(q, s, req, today, card).Err?
    ensures CreateBooking(q, s, req, today, card).error.reason in {CheckInInPast, CheckOutTooSoon, StayTooLong}
    ensures CreateBooking(q, s, req, today, card) == CreateBooking(q2, s2, req, today, card2)
  {
  }

  /**
   * After validation the checks come in a fixed order: the user, the room, the
   * room's flag, the role, the booking limit, the conflict, then the payment.
   * The first that fails names the error.
   */
  lemma CreateBookingCheckOrder(q: Queries, s: Store, req: Request, today: Day, card: bool)
    requires ValidateBookingInput(req, today).Ok?
    ensures var p := ParamsOf(req);
            var r := CreateBooking(q, s, req, today, card);
            && (p.userId !in s.users ==> r == Err(UserNotFound))
            && (p.userId in s.users && p.roomId !in s.rooms ==> r == Err(RoomNotFound))
            && (p.userId in s.users && p.roomId in s.rooms ==>
                  var user := s.users[p.userId];
                  var room := s.rooms[p.roomId];
                  && (!room.available ==> r == Err(RoomNotAvailable))
                  && (room.available && user.role != Customer ==> r == Err(UnauthorizedBooking))
                  && (room.available && user.role == Customer
                      && q.countByUserIdAndStatus(s.bookings, user.id, Confirmed) >= MaxConfirmedBookings
                      ==> r == Err(BookingLimitExceeded))
                  && (ValidateBookingRules(q, s.bookings, user, room).Pass?
                      && HasBookingConflict(q, s.bookings, p.roomId, p.checkIn, p.checkOut)
                      ==> r == Err(BookingConflict)))
  {
  }

  /**
   * Once every check has passed, only the payment can fail: a short balance
   * fails with InsufficientFunds, a declined card with PaymentProcessing, and
   * otherwise the booking is made.
   */
  lemma CreateBookingPaymentOutcome(q: Queries, s: Store, req: Request, today: Day, card: bool)
    requires ValidateBookingInput(req, today).Ok?
    requires Bookable(q, s, ParamsOf(req))
    ensures var p := ParamsOf(req);
            var price := CalculateTotalPrice(s.rooms[p.roomId], p.checkIn, p.checkOut);
            var r := CreateBooking(q, s, req, today, card);
            && (p.paymentMethod == AccountBalance ==>
                  (r.Ok? <==> price <= s.users[p.userId].accountBalance)
                  && (r.Err? ==> r.error == InsufficientFunds))
            && (p.paymentMethod == CreditCard ==>
                  (r.Ok? <==> card) && (r.Err? ==> r.error == PaymentProcessing))
  {
  }

  /**
   * The payment changes only the payer's balance: by exactly the price for an
   * account-balance payment, and not at all for a card.
   */
  lemma CreateBookingDebitsPrice(q: Queries, s: Store, req: Request, today: Day, card: bool)
    requires CreateBooking(q, s, req, today, card).Ok?
    ensures var (t, b) := CreateBooking(q, s, req, today, card).value;
            var u := req.userId.value;
            && u in s.users && u in t.users
            && t.users[u].accountBalance
               == s.users[u].accountBalance - (if b.paymentMethod == AccountBalance then b.totalPrice else 0.0)
            && t.users[u].(accountBalance := s.users[u].accountBalance) == s.users[u]
  {
  }

  // ---------------------------------------------------------------------------
  // Invariants of createBooking

  /** createBooking keeps the store well formed. */
  lemma CreateBookingKeepsWellFormed(q: Queries, s: Store, req: Request, today: Day, card: bool)
    requires WellFormed(s)
    requires CreateBooking(q, s, req, today, card).Ok?
    ensures WellFormed(CreateBooking(q, s, req, today, card).value.0)
    ensures CreateBooking(q, s, req, today, card).value.1.id !in s.bookings
  {
  }

  /**
   * When the conflict query is exact for the request, createBooking keeps "no
   * two CONFIRMED bookings of a room overlap".
   */
  lemma CreateBookingKeepsNoDoubleBooking(q: Queries, s: Store, req: Request, today: Day, card: bool)
    requires WellFormed(s)
    requires AllPresent(req)
    requires ConflictQueryExact(q, s.bookings, req.roomId.value, req.checkIn.value, req.checkOut.value)
    requires NoDoubleBooking(s.bookings, Holding)
    requires CreateBooking(q, s, req, today, card).Ok?
    ensures NoDoubleBooking(CreateBooking(q, s, req, today, card).value.0.bookings, Holding)
  {
    var (t, b) := CreateBooking(q, s, req, today, card).value;
    var p := ParamsOf(req);
    assert !HasBookingConflict(q, s.bookings, p.roomId, p.checkIn, p.checkOut);
    assert forall id :: id in s.bookings && s.bookings[id].status == Confirmed ==> !Overlaps(s.bookings[id], b.roomId, b.checkIn, b.checkOut);
    forall i, j | i in t.bookings && j in t.bookings && i != j
                  && t.bookings[i].status in Holding && t.bookings[j].status in Holding
      ensures !Overlaps(t.bookings[j], t.bookings[i].roomId, t.bookings[i].checkIn, t.bookings[i].checkOut)
    {
      if i == b.id {
        assert t.bookings[j] == s.bookings[j];
      } else if j == b.id {
        assert t.bookings[i] == s.bookings[i];
        assert !Overlaps(s.bookings[i], b.roomId, b.checkIn, b.checkOut);
      }
    }
  }

  /**
   * When the count query is exact for the user, createBooking keeps every
   * user's number of CONFIRMED bookings at most three: the user who books had
   * fewer than three, and no other user's bookings change.
   */
  lemma CreateBookingKeepsBookingLimit(q: Queries, s: Store, req: Request, today: Day, card: bool)
    requires WellFormed(s)
    requires AllPresent(req)
    requires CountQueryExact(q, s.bookings, req.userId.value)
    requires CreateBooking(q, s, req, today, card).Ok?
    ensures var t := CreateBooking(q, s, req, today, card).value.0;
            && |ConfirmedOf(t.bookings, req.userId.value)| == |ConfirmedOf(s.bookings, req.userId.value)| + 1
            && |ConfirmedOf(t.bookings, req.userId.value)| <= MaxConfirmedBookings
            && forall u :: u != req.userId.value ==> ConfirmedOf(t.bookings, u) == ConfirmedOf(s.bookings, u)
  {
    var (t, b) := CreateBooking(q, s, req, today, card).value;
    var u := req.userId.value;
    assert b.userId == u;
    assert ConfirmedOf(t.bookings, u) == ConfirmedOf(s.bookings, u) + {b.id};
    assert b.id !in ConfirmedOf(s.bookings, u);
  }

  /** createBooking never debits more than the payer holds, so balances stay non-negative. */
  lemma CreateBookingKeepsBalancesNonNegative(q: Queries, s: Store, req: Request, today: Day, card: bool)
    requires BalancesNonNegative(s)
    requires CreateBooking(q, s, req, today, card).Ok?
    ensures BalancesNonNegative(CreateBooking(q, s, req, today, card).value.0)
  {
  }

  /**
   * A booking's price is never negative when the room is valid and its rate is in
   * whole cents.
   */
  lemma CreateBookingKeepsPricesNonNegative(q: Queries, s: Store, req: Request, today: Day, card: bool)
    requires PricesNonNegative(s) && RoomsValid(s)
    requires forall id :: id in s.rooms ==> IsCents(s.rooms[id].pricePerNight)
    requires CreateBooking(q, s, req, today, card).Ok?
    ensures PricesNonNegative(CreateBooking(q, s, req, today, card).value.0)
  {
  }

  // ---------------------------------------------------------------------------
  // Cancelling

  /** The cancel paths keep the store well formed, and CANCELLED bookings stay CANCELLED. */
  lemma CancelKeepsWellFormedAndCancelled(s: Store, today: Day, id: BookingId, userId: UserId)
    requires WellFormed(s)
    ensures CancelBooking(s, today, id, userId).Ok? ==>
              var t := CancelBooking(s, today, id, userId).value;
              && WellFormed(t)
              && t.bookings.Keys == s.bookings.Keys
              && forall j :: j in s.bookings && s.bookings[j].status == Cancelled ==> t.bookings[j].status == Cancelled
    ensures CancelBookingAsAdmin(s, id).Ok? ==>
              var t := CancelBookingAsAdmin(s, id).value;
              && WellFormed(t)
              && t.bookings.Keys == s.bookings.Keys
              && forall j :: j in s.bookings && s.bookings[j].status == Cancelled ==> t.bookings[j].status == Cancelled
  {
  }

  /** createBooking leaves every stored booking as it was, so it does not revive a cancelled one either. */
  lemma CreateBookingKeepsStoredBookings(q: Queries, s: Store, req: Request, today: Day, card: bool)
    requires WellFormed(s)
    requires CreateBooking(q, s, req, today, card).Ok?
    ensures forall j :: j in s.bookings ==> CreateBooking(q, s, req, today, card).value.0.bookings[j] == s.bookings[j]
  {
  }

  /** Turning bookings CANCELLED and leaving the rest as they were keeps "no double booking". */
  lemma FewerActiveKeepsNoDoubleBooking(before: map<BookingId, Booking>, after: map<BookingId, Booking>, active: set<BookingStatus>)
    requires NoDoubleBooking(before, active)
    requires after.Keys == before.Keys
    requires forall j :: j in before ==> after[j] == before[j] || after[j] == before[j].(status := Cancelled)
    requires Cancelled !in active
    ensures NoDoubleBooking(after, active)
  {
    forall i, j | i in after && j in after && i != j && after[i].status in active && after[j].status in active
      ensures !Overlaps(after[j], after[i].roomId, after[i].checkIn, after[i].checkOut)
    {
      assert after[i] == before[i] && after[j] == before[j];
    }
  }

  /** Both cancel paths keep "no two CONFIRMED bookings of a room overlap". */
  lemma CancelKeepsNoDoubleBooking(s: Store, today: Day, id: BookingId, userId: UserId)
    requires WellFormed(s) && NoDoubleBooking(s.bookings, Holding)
    ensures CancelBooking(s, today, id, userId).Ok? ==> NoDoubleBooking(CancelBooking(s, today, id, userId).value.bookings, Holding)
    ensures CancelBookingAsAdmin(s, id).Ok? ==> NoDoubleBooking(CancelBookingAsAdmin(s, id).value.bookings, Holding)
  {
    if id in s.bookings && s.bookings[id].userId in s.users {
      FewerActiveKeepsNoDoubleBooking(s.bookings, CancelAndRefund(s, id).bookings, Holding);
    }
  }

  /**
   * Refunds only add to a balance (when prices are not negative), so the cancel
   * paths keep balances non-negative.
   */
  lemma CancelKeepsBalancesNonNegative(s: Store, today: Day, id: BookingId, userId: UserId)
    requires WellFormed(s) && BalancesNonNegative(s) && PricesNonNegative(s)
    ensures CancelBooking(s, today, id, userId).Ok? ==> BalancesNonNegative(CancelBooking(s, today, id, userId).value)
    ensures CancelBookingAsAdmin(s, id).Ok? ==> BalancesNonNegative(CancelBookingAsAdmin(s, id).value)
  {
  }

  /** A second cancel of the same booking fails: the booking is already CANCELLED. */
  lemma CancelTwiceFails(s: Store, today: Day, id: BookingId, userId: UserId)
    requires WellFormed(s)
    requires CancelBookingAsAdmin(s, id).Ok?
    ensures CancelBookingAsAdmin(CancelBookingAsAdmin(s, id).value, id) == Err(BookingCancellation(AlreadyCancelled))
    ensures var t := CancelBookingAsAdmin(s, id).value;
            WellFormed(t) && s.bookings[id].userId == userId && today < s.bookings[id].checkIn
            ==> CancelBooking(t, today, id, userId) == Err(BookingCancellation(AlreadyCancelled))
  {
  }

  /** A booking of 200 paid from a balance of 1000, cancelled, leaves a balance of 1180. */
  lemma RefundExample()
    ensures var user := User(1, "Test Customer", "customer@test.com", "customer", "", Customer, 1000.0);
            var booking := Booking(1, 1, 1, 20, 22, 200.0, AccountBalance, Confirmed);
            var s := Store(map[1 := user], map[], map[1 := booking], 2, 2, 2);
            CancelBooking(s, 18, 1, 1).Ok?
            && CancelBooking(s, 18, 1, 1).value.users[1].accountBalance == 1180.0
  {
  }

  // ---------------------------------------------------------------------------
  // Availability

  /**
   * isRoomAvailable answering true means createBooking for those dates will not
   * fail on the room's flag or on a conflict.
   */
  lemma AvailableMeansNoConflict(q: Queries, s: Store, roomId: RoomId, checkIn: Day, checkOut: Day, today: Day)
    requires IsRoomAvailable(q, s, roomId, Some(checkIn), Some(checkOut), today) == Ok(true)
    ensures roomId in s.rooms && s.rooms[roomId].available
    ensures !HasBookingConflict(q, s.bookings, roomId, checkIn, checkOut)
  {
  }

  /**
   * After a booking is made, isRoomAvailable reports the room taken for any
   * dates overlapping the new stay, when the conflict query is exact.
   */
  lemma BookedRoomNotAvailable(q: Queries, s: Store, req: Request, today: Day, card: bool,
                               q2: Queries, checkIn: Day, checkOut: Day, today2: Day)
    requires WellFormed(s)
    requires CreateBooking(q, s, req, today, card).Ok?
    requires today2 <= checkIn < checkOut
    requires var b := CreateBooking(q, s, req, today, card).value.1;
             Overlaps(b, b.roomId, checkIn, checkOut)
    requires var (t, b) := CreateBooking(q, s, req, today, card).value;
             ConflictQueryExact(q2, t.bookings, b.roomId, checkIn, checkOut)
    ensures var (t, b) := CreateBooking(q, s, req, today, card).value;
            b.roomId in t.rooms && IsRoomAvailable(q2, t, b.roomId, Some(checkIn), Some(checkOut), today2) == Ok(false)
  {
    var (t, b) := CreateBooking(q, s, req, today, card).value;
    assert b.id in t.bookings && t.bookings[b.id] == b;
    assert b.id in ConfirmedOverlaps(t.bookings, b.roomId, checkIn, checkOut);
  }
}
