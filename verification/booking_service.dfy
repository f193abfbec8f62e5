/**
 * BookingService: the simpler booking engine. Prices are plain products with no
 * rounding and no season, availability is an explicit half-open overlap test
 * that ignores CANCELLED bookings, refunds are in full, and any status may be
 * set on a booking.
 *
 * As in the other engine, an operation returns the new state or the exception
 * it throws; the transactional operations roll back on an exception, so an
 * `Err` leaves the stored state as it was.
 */
module BookingService {
  import opened Wrappers
  import opened Calendar
  import opened RoomModel
  import opened Entities
  import opened BookingRepository

  /** The longest stay a booking may cover, in nights. */
  const MaxNights := 30

  /** The statuses of the bookings that hold their room. */
  const Holding: set<BookingStatus> := {Pending, Confirmed}

  /** The RuntimeExceptions the engine throws, one per message. */
  datatype ServiceError =
    | UserIdRequired
    | RoomIdRequired
    | CheckInRequired
    | CheckOutRequired
    | PaymentMethodRequired
    | UserNotFound
    | RoomNotFound
    | CheckInInPast
    | CheckInNotBeforeCheckOut
    | StayTooLong
    | RoomNotAvailableForDates
    | RoomCurrentlyNotAvailable
    | InsufficientBalance
    | CardPaymentFailed
    | BookingNotFound
    | CannotBeCancelled

  // ---------------------------------------------------------------------------
  // Validation

  /** validateBookingInput: the null checks, in argument order. */
  function ValidateBookingInput(req: Request): (r: Result<Params, ServiceError>)
    ensures r.Ok? <==> AllPresent(req)
    ensures r.Ok? ==> r.value == ParamsOf(req)
    ensures r.Err? ==> r.error in {UserIdRequired, RoomIdRequired, CheckInRequired, CheckOutRequired, PaymentMethodRequired}
  {
    if req.userId.None? then Err(UserIdRequired)
    else if req.roomId.None? then Err(RoomIdRequired)
    else if req.checkIn.None? then Err(CheckInRequired)
    else if req.checkOut.None? then Err(CheckOutRequired)
    else if req.paymentMethod.None? then Err(PaymentMethodRequired)
    else Ok(Params(req.userId.value, req.roomId.value, req.checkIn.value, req.checkOut.value, req.paymentMethod.value))
  }

  /** validateBookingDates: check-in not past, strictly before check-out, and at most MaxNights nights. */
  function ValidateBookingDates(checkIn: Day, checkOut: Day, today: Day): (c: Check<ServiceError>)
    ensures c.Pass? <==> today <= checkIn < checkOut <= checkIn + MaxNights
    ensures c.Fail? ==> c.error in {CheckInInPast, CheckInNotBeforeCheckOut, StayTooLong}
  {
    if checkIn < today then Fail(CheckInInPast)
    else if !(checkIn < checkOut) then Fail(CheckInNotBeforeCheckOut)
    else if checkOut - checkIn > MaxNights then Fail(StayTooLong)
    else Pass
  }

  // ---------------------------------------------------------------------------
  // Availability

  /** No booking in `found` that holds its room overlaps [checkIn, checkOut) (the noneMatch of isRoomAvailable). */
  predicate NoneOverlapping(found: set<Booking>, checkIn: Day, checkOut: Day) {
    forall b :: b in found && b.status != Cancelled ==> !(b.checkIn < checkOut && checkIn < b.checkOut)
  }

  /**
   * isRoomAvailable: when the closed-interval exists-query finds a booking of the
   * room, every booking of the room that is not CANCELLED is checked for a
   * half-open overlap; otherwise the room is free.
   */
  function IsRoomAvailable(bookings: map<BookingId, Booking>, roomId: RoomId, checkIn: Day, checkOut: Day): (free: bool)
    ensures free <==> forall id :: id in bookings && bookings[id].status in Holding
                                   ==> !Overlaps(bookings[id], roomId, checkIn, checkOut)
  {
    var hasConflict := ExistsByRoomIdAndCheckInLeAndCheckOutGe(bookings, roomId, checkOut, checkIn);
    PrefilterSound(bookings, roomId, checkIn, checkOut);
    if hasConflict then NoneOverlapping(FindByRoomId(bookings, roomId), checkIn, checkOut) else true
  }

  /**
   * The prefilter decides nothing: with or without it, the room is free exactly
   * when none of its bookings that hold it overlaps the stay.
   */
  lemma PrefilterSound(bookings: map<BookingId, Booking>, roomId: RoomId, checkIn: Day, checkOut: Day)
    ensures NoneOverlapping(FindByRoomId(bookings, roomId), checkIn, checkOut)
            <==> forall id :: id in bookings && bookings[id].status in Holding ==> !Overlaps(bookings[id], roomId, checkIn, checkOut)
    ensures !ExistsByRoomIdAndCheckInLeAndCheckOutGe(bookings, roomId, checkOut, checkIn)
            ==> forall id :: id in bookings && bookings[id].status in Holding ==> !Overlaps(bookings[id], roomId, checkIn, checkOut)
  {
    var found := FindByRoomId(bookings, roomId);
    if NoneOverlapping(found, checkIn, checkOut) {
      forall id | id in bookings && bookings[id].status in Holding
        ensures !Overlaps(bookings[id], roomId, checkIn, checkOut)
      {
        if bookings[id].roomId == roomId {
          assert bookings[id] in found;
        }
      }
    }
    if !ExistsByRoomIdAndCheckInLeAndCheckOutGe(bookings, roomId, checkOut, checkIn) {
      forall id | id in bookings
        ensures !Overlaps(bookings[id], roomId, checkIn, checkOut)
      {
        if Overlaps(bookings[id], roomId, checkIn, checkOut) {
          OverlapImpliesExists(bookings, id, roomId, checkIn, checkOut);
        }
      }
    }
  }

  /** getAvailableRooms: the stored rooms whose flag is set and that isRoomAvailable finds free. */
  function GetAvailableRooms(s: Store, checkIn: Day, checkOut: Day): (rooms: set<Room>)
    ensures forall id :: id in s.rooms ==>
              (s.rooms[id] in rooms <==> s.rooms[id].available && IsRoomAvailable(s.bookings, s.rooms[id].id, checkIn, checkOut))
    ensures forall r :: r in rooms ==> r.available && exists id :: id in s.rooms && s.rooms[id] == r
  {
    set id | id in s.rooms && s.rooms[id].available && IsRoomAvailable(s.bookings, s.rooms[id].id, checkIn, checkOut) :: s.rooms[id]
  }

  // ---------------------------------------------------------------------------
  // Pricing and payment

  /** The price of a stay: the nights times the discounted nightly rate, unrounded. */
  function TotalAmount(room: Room, checkIn: Day, checkOut: Day): (amount: real)
    ensures checkOut == checkIn ==> amount == 0.0
    ensures room.discountPercentage == 0.0 ==> amount == (checkOut - checkIn) as real * room.pricePerNight
    ensures room.discountPercentage == 100.0 ==> amount == 0.0
  {
    (checkOut - checkIn) as real * (room.pricePerNight * (1.0 - room.discountPercentage / 100.0))
  }

  /**
   * processPayment: an account-balance payment debits the balance or fails when it
   * is short; a card payment changes nothing and fails when the card is declined.
   */
  function ProcessPayment(user: User, amount: real, pm: PaymentMethod, cardApproved: bool): (r: Result<User, ServiceError>)
    ensures pm == AccountBalance ==>
              (r.Ok? <==> amount <= user.accountBalance)
              && (r.Ok? ==> r.value == user.(accountBalance := user.accountBalance - amount))
              && (r.Err? ==> r.error == InsufficientBalance)
    ensures pm == CreditCard ==>
              (r.Ok? <==> cardApproved) && (r.Ok? ==> r.value == user) && (r.Err? ==> r.error == CardPaymentFailed)
  {
    if pm == AccountBalance then
      if user.accountBalance < amount then Err(InsufficientBalance)
      else Ok(user.(accountBalance := user.accountBalance - amount))
    else
      if !cardApproved then Err(CardPaymentFailed) else Ok(user)
  }

  /** processRefund: the full price back to an account-balance payer; nothing for a card. */
  function ProcessRefund(s: Store, booking: Booking): (t: Store)
    requires booking.userId in s.users
    ensures t.users.Keys == s.users.Keys && t.bookings == s.bookings && t.rooms == s.rooms
    ensures t.nextUserId == s.nextUserId && t.nextRoomId == s.nextRoomId && t.nextBookingId == s.nextBookingId
    ensures var payer := s.users[booking.userId];
            t.users[booking.userId]
              == payer.(accountBalance := payer.accountBalance + (if booking.paymentMethod == AccountBalance then booking.totalPrice else 0.0))
    ensures forall u :: u in s.users && u != booking.userId ==> t.users[u] == s.users[u]
  {
    if booking.paymentMethod == AccountBalance then Credit(s, booking.userId, booking.totalPrice) else s
  }

  // ---------------------------------------------------------------------------
  // Creating, cancelling and updating bookings

  /**
   * createBooking: validate the input, look up the user and then the room, check
   * the dates, the room's availability for them and then its flag, price the
   * stay, take the payment and save a CONFIRMED booking under the next identity.
   */
  function CreateBooking(s: Store, req: Request, today: Day, cardApproved: bool): (r: Result<(Store, Booking), ServiceError>)
    ensures r.Ok? ==>
              && AllPresent(req)
              && req.userId.value in s.users && req.roomId.value in s.rooms
              && today <= req.checkIn.value < req.checkOut.value <= req.checkIn.value + MaxNights
              && IsRoomAvailable(s.bookings, req.roomId.value, req.checkIn.value, req.checkOut.value)
              && s.rooms[req.roomId.value].available
    ensures r.Ok? ==>
              var (t, b) := r.value;
              && b.id == s.nextBookingId && b.status == Confirmed
              && b.roomId == s.rooms[req.roomId.value].id && b.checkIn == req.checkIn.value && b.checkOut == req.checkOut.value
              && b.userId == s.users[req.userId.value].id && b.paymentMethod == req.paymentMethod.value
              && b.totalPrice == TotalAmount(s.rooms[req.roomId.value], b.checkIn, b.checkOut)
              && t.bookings == s.bookings[b.id := b] && t.rooms == s.rooms && t.nextBookingId == s.nextBookingId + 1
              && t.users.Keys == s.users.Keys
              && (var payer := s.users[req.userId.value];
                  t.users[req.userId.value]
                    == payer.(accountBalance := payer.accountBalance - (if b.paymentMethod == AccountBalance then b.totalPrice else 0.0)))
              && (forall u :: u in s.users && u != req.userId.value ==> t.users[u] == s.users[u])
  {
    match ValidateBookingInput(req)
    case Err(e) => Err(e)
    case Ok(p) =>
      if p.userId !in s.users then Err(UserNotFound)
      else if p.roomId !in s.rooms then Err(RoomNotFound)
      else
        var user := s.users[p.userId];
        var room := s.rooms[p.roomId];
        match ValidateBookingDates(p.checkIn, p.checkOut, today)
        case Fail(e) => Err(e)
        case Pass =>
          if !IsRoomAvailable(s.bookings, p.roomId, p.checkIn, p.checkOut) then Err(RoomNotAvailableForDates)
          else if !room.available then Err(RoomCurrentlyNotAvailable)
          else
            var amount := TotalAmount(room, p.checkIn, p.checkOut);
            match ProcessPayment(user, amount, p.paymentMethod, cardApproved)
            case Err(e) => Err(e)
            case Ok(payer) =>
              var booking := Booking(s.nextBookingId, payer.id, room.id, p.checkIn, p.checkOut, amount, p.paymentMethod, Confirmed);
              var t := s.(users := s.users[p.userId := payer],
                          bookings := s.bookings[booking.id := booking],
                          nextBookingId := s.nextBookingId + 1);
              Ok((t, booking))
  }

  /** getBookingById. */
  function GetBookingById(s: Store, id: BookingId): (r: Result<Booking, ServiceError>)
    ensures r.Ok? <==> id in s.bookings
    ensures r.Ok? ==> r.value == s.bookings[id]
    ensures r.Err? ==> r.error == BookingNotFound
  {
    if id in s.bookings then Ok(s.bookings[id]) else Err(BookingNotFound)
  }

  /**
   * canCancelBooking: the booking exists, belongs to the user, is CONFIRMED and
   * does not start before today (a booking may be cancelled on its check-in day).
   */
  predicate CanCancelBooking(s: Store, today: Day, id: BookingId, userId: UserId): (ok: bool)
    ensures id !in s.bookings ==> !ok
    ensures ok ==> s.bookings[id].status != Cancelled && s.bookings[id].userId == userId
  {
    && id in s.bookings
    && s.bookings[id].userId == userId
    && s.bookings[id].status == Confirmed
    && today <= s.bookings[id].checkIn
  }

  /** canModifyBooking: as canCancelBooking, but only before the check-in day. */
  predicate CanModifyBooking(s: Store, today: Day, id: BookingId, userId: UserId): (ok: bool)
    ensures id !in s.bookings ==> !ok
    ensures ok ==> CanCancelBooking(s, today, id, userId)
  {
    && id in s.bookings
    && s.bookings[id].userId == userId
    && s.bookings[id].status == Confirmed
    && today < s.bookings[id].checkIn
  }

  /**
   * cancelBooking: the booking must exist and pass canCancelBooking for its own
   * user; the payer is refunded in full and the booking becomes CANCELLED.
   */
  function CancelBooking(s: Store, today: Day, id: BookingId): (r: Result<Store, ServiceError>)
    requires WellFormed(s)
    ensures r.Ok? <==> id in s.bookings && s.bookings[id].status == Confirmed && today <= s.bookings[id].checkIn
    ensures id !in s.bookings ==> r == Err(BookingNotFound)
    ensures id in s.bookings && r.Err? ==> r.error == CannotBeCancelled
    ensures r.Ok? ==>
              var b := s.bookings[id];
              && r.value.bookings == s.bookings[id := b.(status := Cancelled)]
              && r.value.rooms == s.rooms && r.value.users.Keys == s.users.Keys
              && r.value.nextUserId == s.nextUserId && r.value.nextRoomId == s.nextRoomId && r.value.nextBookingId == s.nextBookingId
              && (var payer := s.users[b.userId];
                  r.value.users[b.userId]
                    == payer.(accountBalance := payer.accountBalance + (if b.paymentMethod == AccountBalance then b.totalPrice else 0.0)))
              && (forall u :: u in s.users && u != b.userId ==> r.value.users[u] == s.users[u])
  {
    var booking :- GetBookingById(s, id);
    if !CanCancelBooking(s, today, id, booking.userId) then Err(CannotBeCancelled)
    else
      var refunded := ProcessRefund(s, booking);
      Ok(WithStatus(refunded, id, Cancelled))
  }

  /** updateBookingStatus: any status may be set on a stored booking; nothing else changes. */
  function UpdateBookingStatus(s: Store, id: BookingId, status: BookingStatus): (r: Result<(Store, Booking), ServiceError>)
    ensures r.Ok? <==> id in s.bookings
    ensures r.Ok? ==>
              && r.value.1 == s.bookings[id].(status := status)
              && r.value.0 == s.(bookings := s.bookings[id := r.value.1])
    ensures r.Err? ==> r.error == BookingNotFound
  {
    var booking :- GetBookingById(s, id);
    var updated := WithStatus(s, id, status);
    Ok((updated, updated.bookings[id]))
  }

  // ---------------------------------------------------------------------------
  // Queries

  /** getAllBookings. */
  function GetAllBookings(s: Store): (all: set<Booking>)
    ensures forall id :: id in s.bookings ==> s.bookings[id] in all
    ensures forall b :: b in all ==> exists id :: id in s.bookings && s.bookings[id] == b
  {
    FindAll(s.bookings)
  }

  /** getBookingsByUserId: the user query, with no check that the user exists. */
  function GetBookingsByUserId(s: Store, userId: UserId): (found: set<Booking>)
    ensures forall id :: id in s.bookings ==> (s.bookings[id] in found <==> s.bookings[id].userId == userId)
    ensures forall b :: b in found ==> b.userId == userId && b in FindAll(s.bookings)
  {
    FindByUserId(s.bookings, userId)
  }

  /** getBookingsByRoomId. */
  function GetBookingsByRoomId(s: Store, roomId: RoomId): (found: set<Booking>)
    ensures forall id :: id in s.bookings ==> (s.bookings[id] in found <==> s.bookings[id].roomId == roomId)
    ensures forall b :: b in found ==> b.roomId == roomId && b in FindAll(s.bookings)
  {
    FindByRoomId(s.bookings, roomId)
  }

  /** getBookingsByStatus. */
  function GetBookingsByStatus(s: Store, status: BookingStatus): (found: set<Booking>)
    ensures forall id :: id in s.bookings ==> (s.bookings[id] in found <==> s.bookings[id].status == status)
    ensures forall b :: b in found ==> b.status == status && b in FindAll(s.bookings)
  {
    set id | id in s.bookings && s.bookings[id].status == status :: s.bookings[id]
  }

  /** getBookingsByDateRange: the bookings whose stay, as a closed interval, meets [start, end]. */
  function GetBookingsByDateRange(s: Store, start: Day, end: Day): (found: set<Booking>)
    ensures forall id :: id in s.bookings ==>
              (s.bookings[id] in found <==> s.bookings[id].checkIn <= end && start <= s.bookings[id].checkOut)
    ensures forall b :: b in found ==> b in FindAll(s.bookings)
  {
    set id | id in s.bookings && !(s.bookings[id].checkIn > end) && !(s.bookings[id].checkOut < start) :: s.bookings[id]
  }

  /** getUpcomingBookings: the CONFIRMED bookings that start today or later. */
  function GetUpcomingBookings(s: Store, today: Day): (found: set<Booking>)
    ensures forall id :: id in s.bookings ==>
              (s.bookings[id] in found <==> today <= s.bookings[id].checkIn && s.bookings[id].status == Confirmed)
    ensures forall b :: b in found ==> b in FindAll(s.bookings)
  {
    set id | id in s.bookings && (s.bookings[id].checkIn > today || s.bookings[id].checkIn == today)
                              && s.bookings[id].status == Confirmed :: s.bookings[id]
  }

  /** getCurrentBookings: the CONFIRMED bookings whose stay includes the night starting today. */
  function GetCurrentBookings(s: Store, today: Day): (found: set<Booking>)
    ensures forall id :: id in s.bookings ==>
              (s.bookings[id] in found <==> s.bookings[id].checkIn <= today < s.bookings[id].checkOut && s.bookings[id].status == Confirmed)
    ensures forall b :: b in found ==> b in FindAll(s.bookings)
  {
    set id | id in s.bookings && !(s.bookings[id].checkIn > today) && s.bookings[id].checkOut > today
                              && s.bookings[id].status == Confirmed :: s.bookings[id]
  }

  /** getBookingsForManager: every booking, whoever asks. */
  function GetBookingsForManager(s: Store, managerEmail: string): (found: set<Booking>)
    ensures forall id :: id in s.bookings ==> s.bookings[id] in found
    ensures forall b :: b in found ==> exists id :: id in s.bookings && s.bookings[id] == b
  {
    GetAllBookings(s)
  }
}
