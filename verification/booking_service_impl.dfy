/**
 * BookingServiceImpl: the transactional booking engine with exact decimal
 * pricing, business rules checked in a fixed order, and a fee on refunds.
 *
 * Every operation takes the stored state and returns either the new state
 * (with the operation's value) or the exception it throws. The engine runs
 * each call in a transaction that rolls back on any exception, so an `Err`
 * carries no state: the stored state is the one passed in.
 */
module BookingServiceImpl {
  import opened Wrappers
  import opened Calendar
  import opened Money
  import opened RoomModel
  import opened Entities
  import opened BookingRepository

  /** The longest stay a booking may cover, in nights. */
  const MaxNights := 30

  /** The number of CONFIRMED bookings at which a customer may book no more. */
  const MaxConfirmedBookings := 3

  /** The factor applied to stays touching December or January. */
  const HighSeasonSurcharge: real := 1.2

  /** The share of the price kept back when a booking is refunded. */
  const CancellationFeeRate: real := 0.1

  /** Why a request's data is rejected, one reason per message the engine raises. */
  datatype InvalidReason =
    | UserIdMissing
    | RoomIdMissing
    | CheckInMissing
    | CheckOutMissing
    | PaymentMethodMissing
    | DatesMissing
    | CheckInInPast
    | CheckOutTooSoon
    | StayTooLong

  datatype CancellationReason = TooCloseToCheckIn | AlreadyCancelled

  /** The exceptions the engine throws. */
  datatype ImplError =
    | InvalidBookingData(reason: InvalidReason)
    | UserNotFound
    | RoomNotFound
    | RoomNotAvailable
    | UnauthorizedBooking
    | BookingLimitExceeded
    | BookingConflict
    | InsufficientFunds
    | PaymentProcessing
    | BookingNotFound
    | BookingCancellation(cause: CancellationReason)

  /**
   * The repository queries the engine calls but whose definitions are not part of
   * this model: each is a function of the stored state and the call's arguments.
   */
  datatype Queries = Queries(
    findConflictingBookings: (map<BookingId, Booking>, RoomId, Day, Day, BookingStatus) -> seq<Booking>,
    countByUserIdAndStatus: (map<BookingId, Booking>, UserId, BookingStatus) -> nat,
    findByUserIdOrderByBookingDateDesc: (map<BookingId, Booking>, UserId) -> seq<Booking>,
    findAvailableRooms: (map<RoomId, Room>, map<BookingId, Booking>, Day, Day) -> seq<Room>)

  // ---------------------------------------------------------------------------
  // What the undeclared queries are expected to compute

  /** The ids of the CONFIRMED bookings of a room whose stay overlaps [checkIn, checkOut). */
  function ConfirmedOverlaps(bookings: map<BookingId, Booking>, roomId: RoomId, checkIn: Day, checkOut: Day): set<BookingId> {
    set id | id in bookings && bookings[id].status == Confirmed && Overlaps(bookings[id], roomId, checkIn, checkOut)
  }

  lemma ConfirmedOverlapsEmpty(bookings: map<BookingId, Booking>, roomId: RoomId, checkIn: Day, checkOut: Day)
    ensures ConfirmedOverlaps(bookings, roomId, checkIn, checkOut) == {}
            <==> !exists id :: id in bookings && bookings[id].status == Confirmed && Overlaps(bookings[id], roomId, checkIn, checkOut)
  {
    var ids := ConfirmedOverlaps(bookings, roomId, checkIn, checkOut);
    if !exists id :: id in bookings && bookings[id].status == Confirmed && Overlaps(bookings[id], roomId, checkIn, checkOut) {
      assert forall id :: id !in ids;
      assert ids == {};
    }
    if exists id :: id in bookings && bookings[id].status == Confirmed && Overlaps(bookings[id], roomId, checkIn, checkOut) {
      var id :| id in bookings && bookings[id].status == Confirmed && Overlaps(bookings[id], roomId, checkIn, checkOut);
      assert id in ids;
    }
  }

  /** The ids of a user's CONFIRMED bookings. */
  function ConfirmedOf(bookings: map<BookingId, Booking>, userId: UserId): set<BookingId> {
    set id | id in bookings && bookings[id].userId == userId && bookings[id].status == Confirmed
  }

  /**
   * Hypothesis: for this call, the conflict query returns exactly the CONFIRMED
   * bookings of the room that overlap the stay as half-open intervals.
   */
  predicate ConflictQueryExact(q: Queries, bookings: map<BookingId, Booking>, roomId: RoomId, checkIn: Day, checkOut: Day) {
    (set b | b in q.findConflictingBookings(bookings, roomId, checkIn, checkOut, Confirmed))
      == (set id | id in ConfirmedOverlaps(bookings, roomId, checkIn, checkOut) :: bookings[id])
  }

  /** Hypothesis: for this user, the count query counts exactly the user's CONFIRMED bookings. */
  predicate CountQueryExact(q: Queries, bookings: map<BookingId, Booking>, userId: UserId) {
    q.countByUserIdAndStatus(bookings, userId, Confirmed) == |ConfirmedOf(bookings, userId)|
  }

  // ---------------------------------------------------------------------------
  // Validation

  /** The dates of a bookable stay: from today on, at least one night and at most MaxNights. */
  predicate DatesAcceptable(checkIn: Day, checkOut: Day, today: Day) {
    today <= checkIn && checkIn < checkOut && checkOut - checkIn <= MaxNights
  }

  /** validateBookingInput: the null checks in argument order, then the three date rules. */
  function ValidateBookingInput(req: Request, today: Day): (r: Result<Params, ImplError>)
    ensures r.Ok? <==> AllPresent(req) && DatesAcceptable(req.checkIn.value, req.checkOut.value, today)
    ensures r.Ok? ==> r.value == ParamsOf(req)
    ensures r.Err? ==> r.error.InvalidBookingData?
    ensures !AllPresent(req) ==> r.Err? && r.error.reason in {UserIdMissing, RoomIdMissing, CheckInMissing, CheckOutMissing, PaymentMethodMissing}
  {
    if req.userId.None? then Err(InvalidBookingData(UserIdMissing))
    else if req.roomId.None? then Err(InvalidBookingData(RoomIdMissing))
    else if req.checkIn.None? then Err(InvalidBookingData(CheckInMissing))
    else if req.checkOut.None? then Err(InvalidBookingData(CheckOutMissing))
    else if req.paymentMethod.None? then Err(InvalidBookingData(PaymentMethodMissing))
    else
      var checkIn := req.checkIn.value;
      var checkOut := req.checkOut.value;
      if checkIn < today then Err(InvalidBookingData(CheckInInPast))
      else if checkOut < checkIn + 1 then Err(InvalidBookingData(CheckOutTooSoon))
      else if checkOut - checkIn > MaxNights then Err(InvalidBookingData(StayTooLong))
      else Ok(Params(req.userId.value, req.roomId.value, checkIn, checkOut, req.paymentMethod.value))
  }

  /** validateBookingRules: the room's flag, then the user's role, then the booking limit. */
  function ValidateBookingRules(q: Queries, bookings: map<BookingId, Booking>, user: User, room: Room): (c: Check<ImplError>)
    ensures c.Pass? <==> room.available && user.role == Customer
                         && q.countByUserIdAndStatus(bookings, user.id, Confirmed) < MaxConfirmedBookings
    ensures c.Fail? ==> c.error in {RoomNotAvailable, UnauthorizedBooking, BookingLimitExceeded}
    ensures !room.available ==> c == Fail(RoomNotAvailable)
    ensures room.available && user.role != Customer ==> c == Fail(UnauthorizedBooking)
  {
    if !room.available then Fail(RoomNotAvailable)
    else if user.role != Customer then Fail(UnauthorizedBooking)
    else if q.countByUserIdAndStatus(bookings, user.id, Confirmed) >= MaxConfirmedBookings then Fail(BookingLimitExceeded)
    else Pass
  }

  /** hasBookingConflict: the conflict query for CONFIRMED bookings returns something. */
  function HasBookingConflict(q: Queries, bookings: map<BookingId, Booking>, roomId: RoomId, checkIn: Day, checkOut: Day): (conflict: bool)
    ensures ConflictQueryExact(q, bookings, roomId, checkIn, checkOut) ==>
              (conflict <==> exists id :: id in bookings && bookings[id].status == Confirmed && Overlaps(bookings[id], roomId, checkIn, checkOut))
  {
    ExactConflictQueryDecides(q, bookings, roomId, checkIn, checkOut);
    |q.findConflictingBookings(bookings, roomId, checkIn, checkOut, Confirmed)| > 0
  }

  /** ConflictQueryExactMeans, stated for every query: it applies whenever the query is exact. */
  lemma ExactConflictQueryDecides(q: Queries, bookings: map<BookingId, Booking>, roomId: RoomId, checkIn: Day, checkOut: Day)
    ensures ConflictQueryExact(q, bookings, roomId, checkIn, checkOut) ==>
              (|q.findConflictingBookings(bookings, roomId, checkIn, checkOut, Confirmed)| > 0
               <==> exists id :: id in bookings && bookings[id].status == Confirmed && Overlaps(bookings[id], roomId, checkIn, checkOut))
  {
    if ConflictQueryExact(q, bookings, roomId, checkIn, checkOut) {
      ConflictQueryExactMeans(q, bookings, roomId, checkIn, checkOut);
    }
  }

  lemma ConflictQueryExactMeans(q: Queries, bookings: map<BookingId, Booking>, roomId: RoomId, checkIn: Day, checkOut: Day)
    requires ConflictQueryExact(q, bookings, roomId, checkIn, checkOut)
    ensures |q.findConflictingBookings(bookings, roomId, checkIn, checkOut, Confirmed)| > 0
            <==> exists id :: id in bookings && bookings[id].status == Confirmed && Overlaps(bookings[id], roomId, checkIn, checkOut)
  {
    var found := q.findConflictingBookings(bookings, roomId, checkIn, checkOut, Confirmed);
    var ids := ConfirmedOverlaps(bookings, roomId, checkIn, checkOut);
    var image := set id | id in ids :: bookings[id];
    assert (set b | b in found) == image;
    if |found| > 0 {
      assert found[0] in found;
      assert found[0] in image;
      var id :| id in ids && bookings[id] == found[0];
      assert id in bookings && bookings[id].status == Confirmed && Overlaps(bookings[id], roomId, checkIn, checkOut);
    }
    if exists id :: id in bookings && bookings[id].status == Confirmed && Overlaps(bookings[id], roomId, checkIn, checkOut) {
      var id :| id in bookings && bookings[id].status == Confirmed && Overlaps(bookings[id], roomId, checkIn, checkOut);
      assert id in ids;
      assert bookings[id] in image;
      assert bookings[id] in (set b | b in found);
    }
  }

  // ---------------------------------------------------------------------------
  // Pricing

  /** isHighSeason: either date falls in December or January. */
  predicate IsHighSeason(checkIn: Day, checkOut: Day) {
    MonthValue(checkIn) in {12, 1} || MonthValue(checkOut) in {12, 1}
  }

  /** The unrounded price of a base amount: the exact discount taken off, times the season's factor. */
  function ExactPriceOfBase(basePrice: real, discount: real, highSeason: bool): real {
    (basePrice - basePrice * discount / 100.0) * (if highSeason then HighSeasonSurcharge else 1.0)
  }

  /** The discount step of calculateTotalPrice: a positive percentage of the base, rounded to cents. */
  function DiscountAmount(basePrice: real, discount: real): (amount: real)
    ensures discount >= 0.0 ==> Abs(amount - basePrice * discount / 100.0) <= 0.005
  {
    if discount > 0.0 then
      RoundHalfUp2IsHalfUp(basePrice * discount / 100.0);
      RoundHalfUp2(basePrice * discount / 100.0)
    else 0.0
  }

  /** The rest of calculateTotalPrice: the discount taken off, the surcharge applied, the total rounded to cents. */
  function PriceAfterDiscount(basePrice: real, discountAmount: real, highSeason: bool): (price: real)
    ensures IsCents(price)
  {
    var discounted := basePrice - discountAmount;
    var seasonal := if highSeason then discounted * HighSeasonSurcharge else discounted;
    RoundHalfUp2IsHalfUp(seasonal);
    RoundHalfUp2(seasonal)
  }

  /** The arithmetic of calculateTotalPrice on the base price (rate times nights). */
  function PriceOfBase(basePrice: real, discount: real, highSeason: bool): (price: real)
    ensures IsCents(price)
  {
    PriceAfterDiscount(basePrice, DiscountAmount(basePrice, discount), highSeason)
  }

  /** The base amount of calculateTotalPrice: the nightly rate times the number of nights. */
  function BasePrice(room: Room, nights: int): real {
    room.pricePerNight * (nights as real)
  }

  /**
   * The arithmetic of calculateTotalPrice for a number of nights at the room's rate
   * and discount, in a given season. A valid room whose rate is in whole cents is
   * never charged a negative price.
   */
  function PriceOfStay(room: Room, nights: int, highSeason: bool): (price: real)
    ensures IsCents(price)
    ensures ValidRoom(room) && IsCents(room.pricePerNight) && 0 <= nights ==> 0.0 <= price
  {
    StayPriceNonNegative(room, nights, highSeason);
    PriceOfBase(BasePrice(room, nights), room.discountPercentage, highSeason)
  }

  /** A valid room whose rate is in whole cents prices any number of nights at zero or more. */
  lemma StayPriceNonNegative(room: Room, nights: int, highSeason: bool)
    ensures ValidRoom(room) && IsCents(room.pricePerNight) && 0 <= nights
            ==> 0.0 <= PriceOfBase(BasePrice(room, nights), room.discountPercentage, highSeason)
  {
    if ValidRoom(room) && IsCents(room.pricePerNight) && 0 <= nights {
      CentsTimesNights(room.pricePerNight, nights, BasePrice(room, nights));
      PriceOfBaseNonNegative(BasePrice(room, nights), room.discountPercentage, highSeason);
    }
  }

  /** calculateTotalPrice: the price of the stay's nights at the room's rate, discount and season. */
  function CalculateTotalPrice(room: Room, checkIn: Day, checkOut: Day): (price: real)
    ensures IsCents(price)
  {
    PriceOfStay(room, checkOut - checkIn, IsHighSeason(checkIn, checkOut))
  }

  /** An amount in whole cents, times a whole number of nights, is in whole cents. */
  lemma CentsTimesNights(rate: real, nights: nat, basePrice: real)
    requires IsCents(rate) && basePrice == rate * (nights as real)
    ensures IsCents(basePrice)
    ensures 0.0 <= rate ==> 0.0 <= basePrice
  {
    var k := (rate * 100.0).Floor;
    var n := nights as real;
    assert rate * 100.0 == k as real;
    assert basePrice * 100.0 == (rate * 100.0) * n;
    CastOfProduct(k, nights);
    assert basePrice * 100.0 == (k * nights) as real;
  }

  lemma CastOfProduct(a: int, b: int)
    ensures (a * b) as real == (a as real) * (b as real)
  {
  }

  /**
   * With a base amount in whole cents and a discount between 0 and 100 percent,
   * the price is never negative: the rounded discount is at most the base.
   */
  lemma {:induction false} PriceOfBaseNonNegative(basePrice: real, d: real, high: bool)
    requires 0.0 <= basePrice && IsCents(basePrice)
    requires 0.0 <= d <= 100.0
    ensures 0.0 <= PriceOfBase(basePrice, d, high)
  {
    var amount := DiscountAmount(basePrice, d);
    DiscountAtMostBase(basePrice, d);
    PriceAfterDiscountNonNegative(basePrice, amount, high);
    assert PriceOfBase(basePrice, d, high) == PriceAfterDiscount(basePrice, amount, high);
  }

  /** The rounded discount never exceeds a base in whole cents. */
  lemma {:induction false} DiscountAtMostBase(basePrice: real, d: real)
    requires 0.0 <= basePrice && IsCents(basePrice)
    requires 0.0 <= d <= 100.0
    ensures DiscountAmount(basePrice, d) <= basePrice
  {
    if d > 0.0 {
      var cut := basePrice * d / 100.0;
      CutAtMostBase(basePrice, d, cut);
      RoundHalfUp2Monotone(cut, basePrice);
      RoundHalfUp2OfCents(basePrice);
      assert DiscountAmount(basePrice, d) == RoundHalfUp2(cut);
    }
  }

  lemma CutAtMostBase(basePrice: real, d: real, cut: real)
    requires 0.0 <= basePrice && 0.0 <= d <= 100.0
    requires cut == basePrice * d / 100.0
    ensures cut <= basePrice
  {
    assert basePrice * d <= basePrice * 100.0;
  }

  /** A discount no larger than the base leaves a price that is not negative. */
  lemma {:induction false} PriceAfterDiscountNonNegative(basePrice: real, amount: real, high: bool)
    requires amount <= basePrice
    ensures 0.0 <= PriceAfterDiscount(basePrice, amount, high)
  {
    var discounted := basePrice - amount;
    var seasonal := if high then discounted * HighSeasonSurcharge else discounted;
    assert 0.0 <= seasonal;
    RoundHalfUp2NonNegative(seasonal);
  }

  /** The two roundings move the price of a base amount at most 0.011 from its exact price. */
  lemma PriceOfBaseNearExact(basePrice: real, d: real, high: bool)
    requires d >= 0.0
    ensures Abs(PriceOfBase(basePrice, d, high) - ExactPriceOfBase(basePrice, d, high)) <= 0.011
  {
    var amount := DiscountAmount(basePrice, d);
    var cut := basePrice * d / 100.0;
    assert Abs(amount - cut) <= 0.005;
    PriceAfterDiscountError(basePrice, amount, cut, high);
    ExactPriceOfCut(basePrice, d, high, cut);
    assert PriceOfBase(basePrice, d, high) == PriceAfterDiscount(basePrice, amount, high);
  }

  lemma ExactPriceOfCut(basePrice: real, d: real, high: bool, cut: real)
    requires cut == basePrice * d / 100.0
    ensures ExactPriceOfBase(basePrice, d, high) == (basePrice - cut) * (if high then HighSeasonSurcharge else 1.0)
  {
  }

  /** A discount at most half a cent off moves the final price at most 0.011 from the exact one. */
  lemma PriceAfterDiscountError(basePrice: real, amount: real, cut: real, high: bool)
    requires Abs(amount - cut) <= 0.005
    ensures Abs(PriceAfterDiscount(basePrice, amount, high) - (basePrice - cut) * (if high then HighSeasonSurcharge else 1.0)) <= 0.011
  {
    var discounted := basePrice - amount;
    var seasonal := if high then discounted * HighSeasonSurcharge else discounted;
    RoundHalfUp2IsHalfUp(seasonal);
    ErrorsAdd(basePrice - cut, discounted, if high then HighSeasonSurcharge else 1.0, seasonal, RoundHalfUp2(seasonal));
  }

  /** The error budget of two roundings: half a cent scaled by the factor, plus half a cent. */
  lemma ErrorsAdd(exact: real, discounted: real, f: real, seasonal: real, total: real)
    requires f == 1.0 || f == HighSeasonSurcharge
    requires Abs(discounted - exact) <= 0.005
    requires seasonal == (if f == 1.0 then discounted else discounted * HighSeasonSurcharge)
    requires Abs(total - seasonal) <= 0.005
    ensures Abs(total - exact * f) <= 0.011
  {
    if f == 1.0 {
      assert total - exact * f == (total - seasonal) + (discounted - exact);
    } else {
      assert total - exact * f == (total - seasonal) + 1.2 * (discounted - exact);
    }
  }

  // ---------------------------------------------------------------------------
  // Payment and refund

  /**
   * processPayment: an account-balance payment debits the balance or fails when it
   * is short; a card payment changes nothing and fails when the card is declined.
   */
  function ProcessPayment(user: User, amount: real, pm: PaymentMethod, cardApproved: bool): (r: Result<User, ImplError>)
    ensures pm == AccountBalance ==>
              (r.Ok? <==> amount <= user.accountBalance)
              && (r.Ok? ==> r.value == user.(accountBalance := user.accountBalance - amount))
              && (r.Err? ==> r.error == InsufficientFunds)
    ensures pm == CreditCard ==>
              (r.Ok? <==> cardApproved) && (r.Ok? ==> r.value == user) && (r.Err? ==> r.error == PaymentProcessing)
  {
    match pm
    case AccountBalance =>
      if user.accountBalance < amount then Err(InsufficientFunds)
      else Ok(user.(accountBalance := user.accountBalance - amount))
    case CreditCard =>
      if !cardApproved then Err(PaymentProcessing) else Ok(user)
  }

  /** processRefund: credits the booking's user with the price less the cancellation fee. */
  function ProcessRefund(s: Store, booking: Booking): (t: Store)
    requires booking.userId in s.users
    ensures t.users.Keys == s.users.Keys && t.bookings == s.bookings && t.rooms == s.rooms
    ensures t.nextUserId == s.nextUserId && t.nextRoomId == s.nextRoomId && t.nextBookingId == s.nextBookingId
    ensures var payer := s.users[booking.userId];
            t.users[booking.userId] == payer.(accountBalance := payer.accountBalance + 0.9 * booking.totalPrice)
    ensures forall u :: u in s.users && u != booking.userId ==> t.users[u] == s.users[u]
  {
    var refund := booking.totalPrice;
    var fee := refund * CancellationFeeRate;
    Credit(s, booking.userId, refund - fee)
  }

  // ---------------------------------------------------------------------------
  // Creating a booking

  /** createBookingEntity: a CONFIRMED booking of the room for the user, under the next identity. */
  function CreateBookingEntity(id: BookingId, user: User, room: Room, checkIn: Day, checkOut: Day, pm: PaymentMethod, price: real): (b: Booking)
    ensures b.status == Confirmed && b.id == id && b.userId == user.id && b.roomId == room.id
    ensures b.checkIn == checkIn && b.checkOut == checkOut && b.totalPrice == price && b.paymentMethod == pm
  {
    Booking(id, user.id, room.id, checkIn, checkOut, price, pm, Confirmed)
  }

  /** Every check createBooking makes before it prices the stay, passed. */
  predicate Bookable(q: Queries, s: Store, p: Params) {
    && p.userId in s.users
    && p.roomId in s.rooms
    && ValidateBookingRules(q, s.bookings, s.users[p.userId], s.rooms[p.roomId]).Pass?
    && !HasBookingConflict(q, s.bookings, p.roomId, p.checkIn, p.checkOut)
  }

  /**
   * createBooking: validate the input, look up the user and then the room, apply the
   * business rules and the conflict check, price the stay, take the payment and save
   * a CONFIRMED booking under the next booking identity.
   */
  function CreateBooking(q: Queries, s: Store, req: Request, today: Day, cardApproved: bool): (r: Result<(Store, Booking), ImplError>)
    ensures r.Ok? ==> ValidateBookingInput(req, today).Ok? && Bookable(q, s, ValidateBookingInput(req, today).value)
    ensures r.Ok? ==>
              var (t, b) := r.value;
              && b.id == s.nextBookingId && b.status == Confirmed
              && b.roomId == s.rooms[req.roomId.value].id && b.checkIn == req.checkIn.value && b.checkOut == req.checkOut.value
              && b.userId == s.users[req.userId.value].id && b.paymentMethod == req.paymentMethod.value
              && b.totalPrice == CalculateTotalPrice(s.rooms[req.roomId.value], b.checkIn, b.checkOut)
              && t.bookings == s.bookings[b.id := b] && t.rooms == s.rooms && t.nextBookingId == s.nextBookingId + 1
              && t.users.Keys == s.users.Keys
              && (var payer := s.users[req.userId.value];
                  t.users[req.userId.value]
                    == payer.(accountBalance := payer.accountBalance - (if b.paymentMethod == AccountBalance then b.totalPrice else 0.0)))
              && (forall u :: u in s.users && u != req.userId.value ==> t.users[u] == s.users[u])
  {
    match ValidateBookingInput(req, today)
    case Err(e) => Err(e)
    case Ok(p) =>
      if p.userId !in s.users then Err(UserNotFound)
      else if p.roomId !in s.rooms then Err(RoomNotFound)
      else
        var user := s.users[p.userId];
        var room := s.rooms[p.roomId];
        match ValidateBookingRules(q, s.bookings, user, room)
        case Fail(e) => Err(e)
        case Pass =>
          if HasBookingConflict(q, s.bookings, p.roomId, p.checkIn, p.checkOut) then Err(BookingConflict)
          else
            var price := CalculateTotalPrice(room, p.checkIn, p.checkOut);
            match ProcessPayment(user, price, p.paymentMethod, cardApproved)
            case Err(e) => Err(e)
            case Ok(payer) =>
              var booking := CreateBookingEntity(s.nextBookingId, payer, room, p.checkIn, p.checkOut, p.paymentMethod, price);
              var t := s.(users := s.users[p.userId := payer],
                          bookings := s.bookings[booking.id := booking],
                          nextBookingId := s.nextBookingId + 1);
              Ok((t, booking))
  }

  // ---------------------------------------------------------------------------
  // Reading bookings

  /** getBookingById. */
  function GetBookingById(s: Store, id: BookingId): (r: Result<Booking, ImplError>)
    ensures r.Ok? <==> id in s.bookings
    ensures r.Ok? ==> r.value == s.bookings[id]
    ensures r.Err? ==> r.error == BookingNotFound
  {
    if id in s.bookings then Ok(s.bookings[id]) else Err(BookingNotFound)
  }

  /** getAllBookings: every stored booking. */
  function GetAllBookings(s: Store): (all: set<Booking>)
    ensures forall id :: id in s.bookings ==> s.bookings[id] in all
    ensures forall b :: b in all ==> exists id :: id in s.bookings && s.bookings[id] == b
  {
    FindAll(s.bookings)
  }

  /** getBookingsByUserId: the user must exist; the bookings come from the user query. */
  function GetBookingsByUserId(q: Queries, s: Store, userId: UserId): (r: Result<seq<Booking>, ImplError>)
    ensures r.Ok? <==> userId in s.users
    ensures r.Ok? ==> r.value == q.findByUserIdOrderByBookingDateDesc(s.bookings, userId)
    ensures r.Err? ==> r.error == UserNotFound
  {
    if userId !in s.users then Err(UserNotFound)
    else Ok(q.findByUserIdOrderByBookingDateDesc(s.bookings, userId))
  }

  // ---------------------------------------------------------------------------
  // Cancelling

  /** Sets a booking CANCELLED and refunds it when it was paid from the account balance. */
  function CancelAndRefund(s: Store, id: BookingId): (t: Store)
    requires id in s.bookings && s.bookings[id].userId in s.users
    ensures t.bookings == s.bookings[id := s.bookings[id].(status := Cancelled)]
    ensures t.rooms == s.rooms && t.users.Keys == s.users.Keys
    ensures t.nextUserId == s.nextUserId && t.nextRoomId == s.nextRoomId && t.nextBookingId == s.nextBookingId
    ensures var b := s.bookings[id];
            var payer := s.users[b.userId];
            t.users[b.userId]
              == payer.(accountBalance := payer.accountBalance + (if b.paymentMethod == AccountBalance then 0.9 * b.totalPrice else 0.0))
    ensures forall u :: u in s.users && u != s.bookings[id].userId ==> t.users[u] == s.users[u]
  {
    var booking := s.bookings[id];
    var cancelled := WithStatus(s, id, Cancelled);
    if booking.paymentMethod == AccountBalance then ProcessRefund(cancelled, booking) else cancelled
  }

  /**
   * cancelBooking(bookingId, userId): the booking must exist and belong to the user,
   * its check-in must be at least a day away, and it must not be cancelled already.
   */
  function CancelBooking(s: Store, today: Day, id: BookingId, userId: UserId): (r: Result<Store, ImplError>)
    requires WellFormed(s)
    ensures r.Ok? <==> id in s.bookings && s.bookings[id].userId == userId
                       && today < s.bookings[id].checkIn && s.bookings[id].status != Cancelled
    ensures r.Ok? ==> r.value == CancelAndRefund(s, id)
    ensures id !in s.bookings ==> r == Err(BookingNotFound)
    ensures id in s.bookings && s.bookings[id].userId != userId ==> r == Err(UnauthorizedBooking)
    ensures id in s.bookings && s.bookings[id].userId == userId && s.bookings[id].checkIn <= today
            ==> r == Err(BookingCancellation(TooCloseToCheckIn))
    ensures id in s.bookings && s.bookings[id].userId == userId && today < s.bookings[id].checkIn && s.bookings[id].status == Cancelled
            ==> r == Err(BookingCancellation(AlreadyCancelled))
  {
    var booking :- GetBookingById(s, id);
    if booking.userId != userId then Err(UnauthorizedBooking)
    else if booking.checkIn < today + 1 then Err(BookingCancellation(TooCloseToCheckIn))
    else if booking.status == Cancelled then Err(BookingCancellation(AlreadyCancelled))
    else Ok(CancelAndRefund(s, id))
  }

  /** cancelBooking(bookingId), the administrator's cancel: no ownership and no cut-off check. */
  function CancelBookingAsAdmin(s: Store, id: BookingId): (r: Result<Store, ImplError>)
    requires WellFormed(s)
    ensures r.Ok? <==> id in s.bookings && s.bookings[id].status != Cancelled
    ensures r.Ok? ==> r.value == CancelAndRefund(s, id)
    ensures id !in s.bookings ==> r == Err(BookingNotFound)
    ensures id in s.bookings && s.bookings[id].status == Cancelled ==> r == Err(BookingCancellation(AlreadyCancelled))
  {
    var booking :- GetBookingById(s, id);
    if booking.status == Cancelled then Err(BookingCancellation(AlreadyCancelled))
    else Ok(CancelAndRefund(s, id))
  }

  // ---------------------------------------------------------------------------
  // Searching

  /** validateDateRange: both dates given, check-in not past, at least one night; no upper bound. */
  function ValidateDateRange(checkIn: Option<Day>, checkOut: Option<Day>, today: Day): (r: Result<(Day, Day), ImplError>)
    ensures r.Ok? <==> checkIn.Some? && checkOut.Some? && today <= checkIn.value < checkOut.value
    ensures r.Ok? ==> r.value == (checkIn.value, checkOut.value)
    ensures r.Err? ==> r.error.InvalidBookingData?
  {
    if checkIn.None? || checkOut.None? then Err(InvalidBookingData(DatesMissing))
    else if checkIn.value < today then Err(InvalidBookingData(CheckInInPast))
    else if checkOut.value < checkIn.value + 1 then Err(InvalidBookingData(CheckOutTooSoon))
    else Ok((checkIn.value, checkOut.value))
  }

  /** getAvailableRooms: the room query, after the date range is validated. */
  function GetAvailableRooms(q: Queries, s: Store, checkIn: Option<Day>, checkOut: Option<Day>, today: Day): (r: Result<seq<Room>, ImplError>)
    ensures r.Ok? <==> ValidateDateRange(checkIn, checkOut, today).Ok?
    ensures r.Ok? ==> r.value == q.findAvailableRooms(s.rooms, s.bookings, checkIn.value, checkOut.value)
  {
    var (i, o) :- ValidateDateRange(checkIn, checkOut, today);
    Ok(q.findAvailableRooms(s.rooms, s.bookings, i, o))
  }

  /**
   * isRoomAvailable: after the date range is validated and the room is found, the
   * room is available when its flag is set and the conflict query finds nothing.
   */
  function IsRoomAvailable(q: Queries, s: Store, roomId: RoomId, checkIn: Option<Day>, checkOut: Option<Day>, today: Day): (r: Result<bool, ImplError>)
    ensures r.Ok? <==> ValidateDateRange(checkIn, checkOut, today).Ok? && roomId in s.rooms
    ensures r.Ok? && ConflictQueryExact(q, s.bookings, roomId, checkIn.value, checkOut.value) ==>
              (r.value <==> s.rooms[roomId].available
                            && ConfirmedOverlaps(s.bookings, roomId, checkIn.value, checkOut.value) == {})
    ensures ValidateDateRange(checkIn, checkOut, today).Ok? && roomId !in s.rooms ==> r == Err(RoomNotFound)
  {
    var (i, o) :- ValidateDateRange(checkIn, checkOut, today);
    if roomId !in s.rooms then Err(RoomNotFound)
    else if !s.rooms[roomId].available then Ok(false)
    else
      ConfirmedOverlapsEmpty(s.bookings, roomId, i, o);
      Ok(!HasBookingConflict(q, s.bookings, roomId, i, o))
  }

  /** calculateTotalAmount: the price createBooking would charge, after the date range is validated. */
  function CalculateTotalAmount(s: Store, roomId: RoomId, checkIn: Option<Day>, checkOut: Option<Day>, today: Day): (r: Result<real, ImplError>)
    ensures r.Ok? <==> ValidateDateRange(checkIn, checkOut, today).Ok? && roomId in s.rooms
    ensures r.Ok? ==> IsCents(r.value) && r.value == CalculateTotalPrice(s.rooms[roomId], checkIn.value, checkOut.value)
  {
    var (i, o) :- ValidateDateRange(checkIn, checkOut, today);
    if roomId !in s.rooms then Err(RoomNotFound)
    else Ok(CalculateTotalPrice(s.rooms[roomId], i, o))
  }
}
