# Hotel booking engine — a Dafny model

This project models the booking transaction engine of the hotel booking backend.
The engine checks a request, looks up the user and the room, and tests the room's
bookings for a conflicting stay. It then prices the stay, takes the payment, and
saves a CONFIRMED booking. Cancelling runs the reverse flow and refunds the payer.

The repository has two divergent versions of the engine. They are modelled side
by side as separate modules:

- `BookingServiceImpl` (Engine A). Prices are exact decimals with HALF_UP rounding
  to cents, a discount step and a 20% high-season surcharge. Business rules run
  in a fixed order, at most three CONFIRMED bookings are allowed per customer,
  and a refund keeps a 10% cancellation fee.
- `BookingService` (Engine B). Prices are unrounded products with no season.
  Availability is an explicit half-open overlap test that ignores CANCELLED
  bookings. Refunds are in full, and any status may be set on a booking.

Around the two engines sit the smaller pieces they use:

- the `Room` entity and its declared constraints (`RoomModel`);
- the derived queries of `BookingRepository`;
- the booking form `BookingRequestDTO` (`BookingRequestDto`);
- the room catalogue (`RoomService`);
- user registration and lookup (`UserService`).

How the model is built:

- **State.** The stored state (`Entities.Store`) holds users, rooms and bookings
  in maps keyed by their database identities, plus the identity counters.
- **Operations.** Every operation is a pure function from the state, its
  arguments and today's date to `Ok((newState, value))` or `Err(error)`. Both
  engines run each call in a transaction that rolls back on an exception, so an
  error carries no state and the stored state stays as it was.
- **Dates.** Dates are epoch days (`LocalDate.toEpochDay`). The month that the
  high-season rule reads is recovered by `Calendar.CivilOf`, the proleptic
  Gregorian calendar of ISO 8601, which is proved to be the inverse of
  `EpochDayOf`.
- **Money.** Money is exact `real`. `Money.RoundHalfUp2` is BigDecimal's
  `setScale(2, HALF_UP)`.
- **Card payments.** The card outcome is a boolean parameter.

Engine A calls repository queries whose definitions are not part of this model:
`findConflictingBookings`, `countByUserIdAndStatus`,
`findByUserIdOrderByBookingDateDesc` and `findAvailableRooms`. They are
function-valued parameters (`BookingServiceImpl.Queries`). Properties that depend
on what a query returns state it as a hypothesis:

- `ConflictQueryExact`: the conflict query returns exactly the CONFIRMED bookings
  of the room whose stay overlaps `[checkIn, checkOut)`;
- `CountQueryExact`: the count query counts exactly the user's CONFIRMED bookings.

Three behaviours of the code that are easy to misread, and that the model keeps:

- Engine A's owner cancel tests the 24-hour cut-off before the CANCELLED status,
  so an already-cancelled booking inside the cut-off reports the cut-off error
  (BookingServiceImpl.java:297-304).
- Engine A's admin cancel checks neither ownership nor the cut-off
  (BookingServiceImpl.java:359-378).
- Engine B's cancel passes the booking's own user to `canCancelBooking`, so its
  ownership test always passes (BookingService.java:89-94,
  `ServiceProperties.OwnershipVacuous`).

## Model

| member | source | states |
|---|---|---|
| Calendar.CivilOfEpochDayOf | src/main/java/com/example/hotelbooking/service/BookingServiceImpl.java:178-182 | For every valid calendar date, CivilOf of its epoch day gives back the same year, month and day, so getMonthValue reads the date's own month |
| Calendar.EpochDayOfCivilOf | src/main/java/com/example/hotelbooking/service/BookingServiceImpl.java:178-182 | Every epoch day is the epoch day of the date CivilOf assigns to it |
| Calendar.CivilOfIsValid | src/main/java/com/example/hotelbooking/service/BookingServiceImpl.java:178-182 | CivilOf always yields a real date: a month from 1 to 12 and a day within that month's length, leap years included |
| Calendar.EpochDayOfNextDay | src/main/java/com/example/hotelbooking/service/BookingServiceImpl.java:115 | The calendar's next day (month and year roll-over, 29 February) is one epoch day later, so plusDays(1) is `+ 1` |
| Money.RoundHalfUp2IsHalfUp | src/main/java/com/example/hotelbooking/service/BookingServiceImpl.java:161-172 | The rounding gives whole cents at most half a cent from the input, and on a tie the value farther from zero (HALF_UP) |
| Money.HalfUpCentsUnique | src/main/java/com/example/hotelbooking/service/BookingServiceImpl.java:161-172 | Any whole-cent value that rounds x HALF_UP is RoundHalfUp2(x): the rounding is determined by that promise |
| Money.RoundHalfUp2OfCents | src/main/java/com/example/hotelbooking/service/BookingServiceImpl.java:172 | An amount already in whole cents is left unchanged by the final setScale |
| Money.RoundHalfUp2Monotone | src/main/java/com/example/hotelbooking/service/BookingServiceImpl.java:172 | Rounding never reverses the order of two amounts |
| RoomModel.NewRoom | src/main/java/com/example/hotelbooking/model/Room.java:33 | A room from the no-argument constructor is available, and it breaks the declared constraints until its fields are set |
| RoomModel.ValidRoomDiscountedRate | src/main/java/com/example/hotelbooking/model/Room.java:26-31 | For a room meeting its constraints, the discounted nightly rate lies between 0 and the undiscounted rate |
| RoomModel.Utf16Length | src/main/java/com/example/hotelbooking/model/Room.java:35-36 | The length @Size checks lies between the character count and twice it, and equals the character count when no character lies outside the Basic Multilingual Plane |
| RoomModel.AstralCharacterCountsTwice | src/main/java/com/example/hotelbooking/model/Room.java:35-36 | One character outside the Basic Multilingual Plane uses two of the description's 500 units |
| BookingRepository.FindByRoomId | src/main/java/com/example/hotelbooking/repository/BookingRepository.java:16 | A stored booking is returned exactly when its room id is the one asked for, and nothing else is returned |
| BookingRepository.FindByUserId | src/main/java/com/example/hotelbooking/repository/BookingRepository.java:19 | A stored booking is returned exactly when its user id is the one asked for, and nothing else is returned |
| BookingRepository.ExistsMeansSpanningBookingOfRoom | src/main/java/com/example/hotelbooking/repository/BookingRepository.java:13-14 | The exists-query holds exactly when some booking of the room has check-in ≤ a and check-out ≥ b, parameters bound in order |
| BookingRepository.OverlapImpliesExists | src/main/java/com/example/hotelbooking/repository/BookingRepository.java:13-14 | Called as (room, checkOut, checkIn), the exists-query is true whenever some booking of the room overlaps the stay half-open |
| BookingRepository.CancelledBookingCountsForExists | src/main/java/com/example/hotelbooking/repository/BookingRepository.java:13-14 | A lone CANCELLED booking makes the exists-query true: it applies no status filter |
| BookingRepository.FindByRoomIdPartitions | src/main/java/com/example/hotelbooking/repository/BookingRepository.java:16 | Different rooms' results are disjoint, and each is part of findAll |
| BookingRepository.FindByUserIdPartitions | src/main/java/com/example/hotelbooking/repository/BookingRepository.java:19 | Different users' results are disjoint, and each is part of findAll |
| BookingServiceImpl.ValidateBookingInput | src/main/java/com/example/hotelbooking/service/BookingServiceImpl.java:95-121 | Accepts exactly the requests with no null field whose dates give today ≤ checkIn and 1 to 30 nights, and returns their arguments; every rejection is InvalidBookingData, naming a missing field when one is null |
| BookingServiceImpl.ValidateBookingRules | src/main/java/com/example/hotelbooking/service/BookingServiceImpl.java:126-140 | Passes exactly when the room's flag is set, the user is a CUSTOMER and has fewer than 3 CONFIRMED bookings; a cleared flag reports RoomNotAvailable before the role is looked at |
| BookingServiceImpl.HasBookingConflict | src/main/java/com/example/hotelbooking/service/BookingServiceImpl.java:145-149 | Under the exact-query hypothesis, a conflict is reported exactly when some CONFIRMED booking of the room overlaps the stay half-open |
| BookingServiceImpl.ConflictQueryExactMeans | src/main/java/com/example/hotelbooking/service/BookingServiceImpl.java:146-148 | An exact conflict query returns a non-empty list exactly when an overlapping CONFIRMED booking of the room exists |
| BookingServiceImpl.DiscountAmount | src/main/java/com/example/hotelbooking/service/BookingServiceImpl.java:159-165 | For a non-negative percentage, the rounded discount is within half a cent of the exact share of the base |
| BookingServiceImpl.PriceAfterDiscount | src/main/java/com/example/hotelbooking/service/BookingServiceImpl.java:164-172 | The price after the discount and the season is in whole cents |
| BookingServiceImpl.PriceOfBase | src/main/java/com/example/hotelbooking/service/BookingServiceImpl.java:156-172 | The price of a base amount is in whole cents |
| BookingServiceImpl.PriceOfStay | src/main/java/com/example/hotelbooking/service/BookingServiceImpl.java:154-172 | The price of a number of nights is in whole cents; for a valid room whose rate is in whole cents and at least zero nights, it is not negative |
| BookingServiceImpl.StayPriceNonNegative | src/main/java/com/example/hotelbooking/service/BookingServiceImpl.java:154-172 | For a valid room whose rate is in whole cents and at least zero nights, the price of the stay is not negative |
| BookingServiceImpl.CalculateTotalPrice | src/main/java/com/example/hotelbooking/service/BookingServiceImpl.java:154-173 | The price of a stay is in whole cents |
| BookingServiceImpl.CentsTimesNights | src/main/java/com/example/hotelbooking/service/BookingServiceImpl.java:156-157 | A whole-cent rate times a whole number of nights is in whole cents, and not negative when the rate is not |
| BookingServiceImpl.PriceOfBaseNonNegative | src/main/java/com/example/hotelbooking/service/BookingServiceImpl.java:159-172 | With a base in whole cents and a discount from 0 to 100 percent, the price is never negative |
| BookingServiceImpl.DiscountAtMostBase | src/main/java/com/example/hotelbooking/service/BookingServiceImpl.java:159-165 | The rounded discount never exceeds a whole-cent base when the percentage is at most 100 |
| BookingServiceImpl.PriceAfterDiscountNonNegative | src/main/java/com/example/hotelbooking/service/BookingServiceImpl.java:164-172 | A discount no larger than the base leaves a price that is not negative, in either season |
| BookingServiceImpl.PriceOfBaseNearExact | src/main/java/com/example/hotelbooking/service/BookingServiceImpl.java:154-172 | The two roundings keep the price within 0.011 of the exact (base − base·d/100) × season factor |
| BookingServiceImpl.PriceAfterDiscountError | src/main/java/com/example/hotelbooking/service/BookingServiceImpl.java:164-172 | A discount at most half a cent off moves the final price at most 0.011 from the exact one |
| BookingServiceImpl.ProcessPayment | src/main/java/com/example/hotelbooking/service/BookingServiceImpl.java:187-231 | A balance payment succeeds exactly when the price is covered and then debits exactly the price, else InsufficientFunds; a card payment never touches the balance and fails with PaymentProcessing exactly when declined |
| BookingServiceImpl.ProcessRefund | src/main/java/com/example/hotelbooking/service/BookingServiceImpl.java:321-335 | The payer's balance rises by exactly 90% of the booking's price and no other field of the payer changes; no other user, room, booking or identity counter changes |
| BookingServiceImpl.CreateBookingEntity | src/main/java/com/example/hotelbooking/service/BookingServiceImpl.java:236-249 | The new booking is CONFIRMED and carries the given user, room, dates, payment method and price |
| BookingServiceImpl.CreateBooking | src/main/java/com/example/hotelbooking/service/BookingServiceImpl.java:46-90 | Success implies the input was valid and every rule and the conflict check passed; the new CONFIRMED booking, under a fresh id, belongs to the requesting user, carries the requested room, dates and payment method and is priced by calculateTotalPrice; the payer's balance drops by that price for a balance payment and is kept for a card, the rest of the payer's record is kept, and no other user or stored booking changes |
| BookingServiceImpl.GetBookingById | src/main/java/com/example/hotelbooking/service/BookingServiceImpl.java:263-268 | Returns the stored booking exactly when the id is stored, else BookingNotFound |
| BookingServiceImpl.GetAllBookings | src/main/java/com/example/hotelbooking/service/BookingServiceImpl.java:251-255 | Returns every stored booking and nothing else |
| BookingServiceImpl.GetBookingsByUserId | src/main/java/com/example/hotelbooking/service/BookingServiceImpl.java:270-277 | Fails with UserNotFound exactly when the user is absent; otherwise returns the user query's answer |
| BookingServiceImpl.CancelAndRefund | src/main/java/com/example/hotelbooking/service/BookingServiceImpl.java:306-313 | The booking becomes CANCELLED and nothing else in it changes; only an ACCOUNT_BALANCE payer is credited, by exactly 90% of the price, and no other field of the payer changes; no other user, room or identity counter changes |
| BookingServiceImpl.CancelBooking | src/main/java/com/example/hotelbooking/service/BookingServiceImpl.java:288-316 | Succeeds exactly for an owner's booking that is not CANCELLED and starts after today; errors come in order: not found, not the owner, inside the cut-off, already cancelled |
| BookingServiceImpl.CancelBookingAsAdmin | src/main/java/com/example/hotelbooking/service/BookingServiceImpl.java:359-378 | Succeeds exactly for a stored booking that is not CANCELLED, with no ownership or cut-off check; an already-cancelled booking is rejected |
| BookingServiceImpl.ValidateDateRange | src/main/java/com/example/hotelbooking/service/BookingServiceImpl.java:347-357 | Accepts exactly two given dates with today ≤ checkIn < checkOut, with no upper bound on the stay |
| BookingServiceImpl.GetAvailableRooms | src/main/java/com/example/hotelbooking/service/BookingServiceImpl.java:337-342 | Fails exactly when the date range is rejected; otherwise returns the room query's answer |
| BookingServiceImpl.IsRoomAvailable | src/main/java/com/example/hotelbooking/service/BookingServiceImpl.java:380-392 | Answers exactly for a valid range and a stored room; under the exact-query hypothesis the answer is "flag set and no CONFIRMED booking overlaps" |
| BookingServiceImpl.CalculateTotalAmount | src/main/java/com/example/hotelbooking/service/BookingServiceImpl.java:394-403 | Answers exactly for a valid range and a stored room, with the whole-cent price calculateTotalPrice gives, the same price createBooking charges |
| ImplPricing.HighSeasonMonths | src/main/java/com/example/hotelbooking/service/BookingServiceImpl.java:178-182 | For valid calendar dates, a stay is high season exactly when its check-in or check-out month is December or January |
| ImplPricing.SubCentRateGoesNegative | src/main/java/com/example/hotelbooking/service/BookingServiceImpl.java:159-172 | A rate of 0.125 for one night at a 100% discount is priced at −0.01, so non-negativity needs whole-cent rates |
| ImplPricing.DiscountExample | src/main/java/com/example/hotelbooking/service/BookingServiceTest.java:219-237 | Two nights at 100 with a 10% discount, off-season, cost 180 |
| ImplPricing.HighSeasonExample | src/main/java/com/example/hotelbooking/service/BookingServiceImpl.java:167-172 | A base of 200 with no discount costs 240 in high season |
| ImplPricing.JuneIsOffSeason | src/main/java/com/example/hotelbooking/service/BookingServiceImpl.java:178-182 | A stay from 2024-06-01 to 2024-06-03 is not high season |
| ImplPricing.NewYearIsHighSeason | src/main/java/com/example/hotelbooking/service/BookingServiceImpl.java:178-182 | A stay from 2024-12-30 to 2025-01-02 is high season |
| ImplPricing.JuneStayExample | src/main/java/com/example/hotelbooking/service/BookingServiceTest.java:219-237 | calculateTotalPrice of a 100-a-night room with a 10% discount for 2024-06-01 to 2024-06-03 is 180 |
| ImplProperties.NullInputRejectedFirst | src/main/java/com/example/hotelbooking/service/BookingServiceImpl.java:95-111 | A request with a null field fails with InvalidBookingData naming a missing field, with the same result whatever the state, queries and card |
| ImplProperties.DateRulesRejectedFirst | src/main/java/com/example/hotelbooking/service/BookingServiceImpl.java:112-120 | With every field given, dates outside the rules fail with a date reason, independently of the stored state |
| ImplProperties.CreateBookingCheckOrder | src/main/java/com/example/hotelbooking/service/BookingServiceImpl.java:58-74 | After validation, the first failing check names the error: user, room, flag, role, limit, then conflict |
| ImplProperties.CreateBookingPaymentOutcome | src/main/java/com/example/hotelbooking/service/BookingServiceImpl.java:76-89 | Once every check has passed, a balance payment succeeds exactly when the price is covered, else InsufficientFunds; a card succeeds exactly when approved, else PaymentProcessing |
| ImplProperties.CreateBookingDebitsPrice | src/main/java/com/example/hotelbooking/service/BookingServiceImpl.java:203-217 | A successful booking lowers the payer's balance by exactly its price for a balance payment and not at all for a card; no other field of the payer changes |
| ImplProperties.CreateBookingKeepsWellFormed | src/main/java/com/example/hotelbooking/service/BookingServiceImpl.java:83-89 | createBooking keeps every entity under its id and below the counters, and the new id was unused |
| ImplProperties.CreateBookingKeepsNoDoubleBooking | src/main/java/com/example/hotelbooking/service/BookingServiceImpl.java:69-74 | With an exact conflict query, if no two CONFIRMED bookings of a room overlapped before a booking, none do after it |
| ImplProperties.CreateBookingKeepsBookingLimit | src/main/java/com/example/hotelbooking/service/BookingServiceImpl.java:135-139 | With an exact count query, the booker gains exactly one CONFIRMED booking and ends with at most 3; no one else's change |
| ImplProperties.CreateBookingKeepsBalancesNonNegative | src/main/java/com/example/hotelbooking/service/BookingServiceImpl.java:203-213 | No balance goes negative through a booking |
| ImplProperties.CreateBookingKeepsPricesNonNegative | src/main/java/com/example/hotelbooking/service/BookingServiceImpl.java:154-172 | For valid rooms with whole-cent rates, every stored price stays non-negative |
| ImplProperties.CancelKeepsWellFormedAndCancelled | src/main/java/com/example/hotelbooking/service/BookingServiceImpl.java:288-378 | Both cancel paths keep the store well formed and the same bookings stored, and never take a booking out of CANCELLED |
| ImplProperties.CreateBookingKeepsStoredBookings | src/main/java/com/example/hotelbooking/service/BookingServiceImpl.java:82-86 | createBooking leaves every booking already stored exactly as it was |
| ImplProperties.FewerActiveKeepsNoDoubleBooking | src/main/java/com/example/hotelbooking/service/BookingServiceImpl.java:306-308 | Turning bookings CANCELLED, and changing nothing else, keeps "no double booking" |
| ImplProperties.CancelKeepsNoDoubleBooking | src/main/java/com/example/hotelbooking/service/BookingServiceImpl.java:288-378 | Both cancel paths keep "no two CONFIRMED bookings of a room overlap" |
| ImplProperties.CancelKeepsBalancesNonNegative | src/main/java/com/example/hotelbooking/service/BookingServiceImpl.java:321-331 | With non-negative prices, refunds keep every balance non-negative |
| ImplProperties.CancelTwiceFails | src/main/java/com/example/hotelbooking/service/BookingServiceImpl.java:359-378 | After an admin cancel, a second admin cancel fails as already cancelled, and so does the owner's cancel before the cut-off |
| ImplProperties.RefundExample | src/main/java/com/example/hotelbooking/service/BookingServiceTest.java:263-284 | Cancelling a 200 booking paid from a balance of 1000 leaves 1180 |
| ImplProperties.AvailableMeansNoConflict | src/main/java/com/example/hotelbooking/service/BookingServiceImpl.java:380-392 | A "true" from isRoomAvailable means the room is stored, its flag is set, and createBooking's conflict check finds nothing |
| ImplProperties.BookedRoomNotAvailable | src/main/java/com/example/hotelbooking/service/BookingServiceImpl.java:380-392 | After a booking, with an exact conflict query, isRoomAvailable answers false for any range overlapping it |
| BookingService.ValidateBookingInput | src/main/java/com/example/hotelbooking/service/BookingService.java:272-288 | Accepts exactly the requests with no null field, returning their arguments; otherwise one of the five "required" errors |
| BookingService.ValidateBookingDates | src/main/java/com/example/hotelbooking/service/BookingService.java:290-305 | Passes exactly when today ≤ checkIn < checkOut ≤ checkIn + 30 |
| BookingService.TotalAmount | src/main/java/com/example/hotelbooking/service/BookingService.java:66-69 | Zero nights or a 100% discount cost nothing, and with no discount the price is the nights times the nightly rate |
| BookingService.IsRoomAvailable | src/main/java/com/example/hotelbooking/service/BookingService.java:196-212 | True exactly when no PENDING or CONFIRMED booking of the room overlaps the stay half-open |
| BookingService.PrefilterSound | src/main/java/com/example/hotelbooking/service/BookingService.java:196-212 | The closed-interval exists prefilter never changes the answer: the detailed test alone decides, and a false prefilter already means no overlap |
| BookingService.GetAvailableRooms | src/main/java/com/example/hotelbooking/service/BookingService.java:214-220 | Returns exactly the stored rooms whose flag is set and for which isRoomAvailable holds |
| BookingService.ProcessPayment | src/main/java/com/example/hotelbooking/service/BookingService.java:307-326 | A balance payment succeeds exactly when covered and debits exactly the amount, else InsufficientBalance; a card never touches the balance and fails exactly when declined |
| BookingService.ProcessRefund | src/main/java/com/example/hotelbooking/service/BookingService.java:328-338 | An ACCOUNT_BALANCE payer gets the full price back and a card payer's record is untouched; no other field of the payer, no other user, and no room, booking or identity counter changes |
| BookingService.CreateBooking | src/main/java/com/example/hotelbooking/service/BookingService.java:39-83 | Success implies no null field, user and room found, valid dates, room free for the dates and flag set; the new CONFIRMED booking, under a fresh id, belongs to the requesting user, carries the requested room, dates and payment method and is priced at nights × discounted rate; the payer's balance drops by that amount for a balance payment and is kept for a card, the rest of the payer's record is kept, and no other user or stored booking changes |
| BookingService.GetBookingById | src/main/java/com/example/hotelbooking/service/BookingService.java:124-127 | Returns the stored booking exactly when the id is stored, else BookingNotFound |
| BookingService.CanCancelBooking | src/main/java/com/example/hotelbooking/service/BookingService.java:224-244 | An unknown id answers false instead of failing; a true answer means the booking is the user's and not CANCELLED (partners: ServiceProperties.OwnershipVacuous, ServiceProperties.ModifyImpliesCancel) |
| BookingService.CanModifyBooking | src/main/java/com/example/hotelbooking/service/BookingService.java:246-266 | An unknown id answers false instead of failing; whatever may be modified may also be cancelled (partner: ServiceProperties.ModifyImpliesCancel, which shows the two differ only on the check-in day) |
| BookingService.CancelBooking | src/main/java/com/example/hotelbooking/service/BookingService.java:85-104 | Succeeds exactly for a stored CONFIRMED booking with today ≤ checkIn, else BookingNotFound or CannotBeCancelled; the booking becomes CANCELLED, an ACCOUNT_BALANCE payer gets the full price back with the rest of the record kept, and no other user, room, booking or identity counter changes |
| BookingService.UpdateBookingStatus | src/main/java/com/example/hotelbooking/service/BookingService.java:106-116 | For a stored booking, any status is set and no other field or entity changes; an absent id gives BookingNotFound |
| BookingService.GetAllBookings | src/main/java/com/example/hotelbooking/service/BookingService.java:120-122 | Returns every stored booking and nothing else |
| BookingService.GetBookingsByUserId | src/main/java/com/example/hotelbooking/service/BookingService.java:129-131 | A stored booking is listed exactly when it is the user's, and nothing else is listed; there is no check that the user exists |
| BookingService.GetBookingsByRoomId | src/main/java/com/example/hotelbooking/service/BookingService.java:133-135 | A stored booking is listed exactly when it is of the room, and nothing else is listed |
| BookingService.GetBookingsByStatus | src/main/java/com/example/hotelbooking/service/BookingService.java:137-141 | A stored booking is listed exactly when it has the status |
| BookingService.GetBookingsByDateRange | src/main/java/com/example/hotelbooking/service/BookingService.java:143-149 | A stored booking is listed exactly when its closed stay meets [start, end] |
| BookingService.GetUpcomingBookings | src/main/java/com/example/hotelbooking/service/BookingService.java:151-158 | A stored booking is listed exactly when it is CONFIRMED and starts today or later |
| BookingService.GetCurrentBookings | src/main/java/com/example/hotelbooking/service/BookingService.java:160-168 | A stored booking is listed exactly when it is CONFIRMED and checkIn ≤ today < checkOut |
| BookingService.GetBookingsForManager | src/main/java/com/example/hotelbooking/service/BookingService.java:189-192 | Lists every stored booking and nothing else, whatever the manager's email |
| ServiceProperties.NullInputRejectedFirst | src/main/java/com/example/hotelbooking/service/BookingService.java:272-288 | A request with a null field fails with a "required" error, with the same result whatever the state and card |
| ServiceProperties.LookupsBeforeDates | src/main/java/com/example/hotelbooking/service/BookingService.java:44-53 | An unknown user or room is reported whatever the dates: the lookups come before the date rules |
| ServiceProperties.CreateBookingCheckOrder | src/main/java/com/example/hotelbooking/service/BookingService.java:52-75 | With user and room found, the first failing check names the error: dates, bookings for the dates, flag, then payment |
| ServiceProperties.CreateBookingKeepsWellFormed | src/main/java/com/example/hotelbooking/service/BookingService.java:77-82 | createBooking keeps the store well formed and uses an unused id |
| ServiceProperties.CreateBookingKeepsNoDoubleBooking | src/main/java/com/example/hotelbooking/service/BookingService.java:55-58 | With no hypothesis, no two PENDING or CONFIRMED bookings of a room overlap after a booking if none did before |
| ServiceProperties.TotalAmountNonNegative | src/main/java/com/example/hotelbooking/service/BookingService.java:66-69 | A valid room's price for a stay of at least zero nights is not negative |
| ServiceProperties.CreateBookingKeepsBalancesAndPrices | src/main/java/com/example/hotelbooking/service/BookingService.java:307-317 | With valid rooms, no balance goes negative and no negative price is stored |
| ServiceProperties.OwnershipVacuous | src/main/java/com/example/hotelbooking/service/BookingService.java:89-94 | canCancelBooking called with the booking's own user reduces to "CONFIRMED and today ≤ checkIn" |
| ServiceProperties.ModifyImpliesCancel | src/main/java/com/example/hotelbooking/service/BookingService.java:224-266 | Whatever can be modified can be cancelled; the only difference is a check-in of today |
| ServiceProperties.CancelBookingKeepsInvariants | src/main/java/com/example/hotelbooking/service/BookingService.java:85-104 | cancelBooking keeps the store well formed and "no double booking", and keeps CANCELLED bookings CANCELLED |
| ServiceProperties.CancelBookingKeepsBalancesNonNegative | src/main/java/com/example/hotelbooking/service/BookingService.java:328-333 | With non-negative prices, a full refund keeps every balance non-negative |
| ServiceProperties.AvailableRoomsExact | src/main/java/com/example/hotelbooking/service/BookingService.java:214-220 | A stored room is listed exactly when its flag is set and no PENDING or CONFIRMED booking of it overlaps |
| ServiceProperties.BookedRoomNotAvailable | src/main/java/com/example/hotelbooking/service/BookingService.java:196-212 | After a booking, its room is not available for any range overlapping the stay |
| ServiceProperties.CancelledBookingIgnored | src/main/java/com/example/hotelbooking/service/BookingService.java:203-208 | A CANCELLED booking never makes its room unavailable |
| ServiceProperties.UpdateRevivesCancelled | src/main/java/com/example/hotelbooking/service/BookingService.java:106-116 | A CANCELLED booking can be set CONFIRMED again, with every other field kept |
| ServiceProperties.DoubleRefund | src/main/java/com/example/hotelbooking/service/BookingService.java:85-116 | Cancel, confirm again, cancel: a 200 booking paid from 1000 refunds twice, ending at 1400 |
| ServiceProperties.UpdateBreaksNoDoubleBooking | src/main/java/com/example/hotelbooking/service/BookingService.java:106-116 | Reviving a CANCELLED booking can create two overlapping CONFIRMED bookings of one room |
| EnginesCompared.SameDateRules | src/main/java/com/example/hotelbooking/service/BookingServiceImpl.java:112-120 | Engine A's date rules accept exactly the dates Engine B's validateBookingDates accepts |
| EnginesCompared.SameNullChecks | src/main/java/com/example/hotelbooking/service/BookingService.java:272-288 | Engine B's null check accepts exactly the requests with no null field; Engine A's validation accepts exactly what Engine B's null check and date check accept together; a request with a null field is rejected by Engine A for a missing field |
| EnginesCompared.OffSeasonPricesAgree | src/main/java/com/example/hotelbooking/service/BookingServiceImpl.java:154-172 | Off-season, Engine A's price is within 0.011 of Engine B's for the same stay |
| EnginesCompared.HighSeasonPricesAgree | src/main/java/com/example/hotelbooking/service/BookingServiceImpl.java:167-172 | In high season, Engine A's price is within 0.011 of 1.2 times Engine B's |
| EnginesCompared.PricesAgree | src/main/java/com/example/hotelbooking/service/BookingServiceImpl.java:154-172 | In either season, Engine A's price is within 0.011 of the season factor times Engine B's |
| EnginesCompared.ExactPriceIsTotalAmount | src/main/java/com/example/hotelbooking/service/BookingService.java:66-69 | Engine A's unrounded price equals Engine B's price times the season factor |
| EnginesCompared.RefundsDiffer | src/main/java/com/example/hotelbooking/service/BookingServiceImpl.java:306-313 | Cancelling the same booking, Engine B credits an ACCOUNT_BALANCE payer exactly 10% of the price more than Engine A's cancel does; a card payer is credited by neither; both leave the same bookings |
| BookingRequestDto.NumberOfNights | src/main/java/com/example/hotelbooking/dto/BookingRequestDTO.java:110-115 | With both dates given, check-in plus the nights is check-out; otherwise 0 |
| BookingRequestDto.ToRequest | src/main/java/com/example/hotelbooking/dto/BookingRequestDTO.java:12-29 | The request has no null field exactly when the form's required fields are present, and then carries the form's values |
| BookingRequestDto.NightsPositive | src/main/java/com/example/hotelbooking/dto/BookingRequestDTO.java:32-38 | With both dates given, the range is valid exactly when there is at least one night |
| BookingRequestDto.FormValidMeansImplAccepts | src/main/java/com/example/hotelbooking/dto/BookingRequestDTO.java:32-47 | Engine A's input validation accepts a form exactly when the form is valid and spans at most 30 nights |
| BookingRequestDto.FormValidMeansSimpleAccepts | src/main/java/com/example/hotelbooking/dto/BookingRequestDTO.java:32-47 | Engine B's two validation steps accept a form exactly when the form is valid and spans at most 30 nights |
| BookingRequestDto.NotesIgnored | src/main/java/com/example/hotelbooking/dto/BookingRequestDTO.java:29 | The optional notes affect neither the request, nor validity, nor the night count |
| RoomService.Save | src/main/java/com/example/hotelbooking/model/Room.java:16-36 | A save succeeds exactly when the room meets every declared constraint and its number is not another room's; then only that room entry changes |
| RoomService.AddRoom | src/main/java/com/example/hotelbooking/service/RoomService.java:16-18 | A valid room with a free number is stored under the next identity, which then advances; nothing else changes |
| RoomService.GetAllRooms | src/main/java/com/example/hotelbooking/service/RoomService.java:20-22 | Returns every stored room and nothing else |
| RoomService.GetRoomById | src/main/java/com/example/hotelbooking/service/RoomService.java:24-27 | Returns the stored room exactly when the id is stored, else RoomNotFound |
| RoomService.UpdateRoom | src/main/java/com/example/hotelbooking/service/RoomService.java:29-41 | An absent id fails with RoomNotFound; a stored id succeeds exactly when the merged room is valid and its number is free; then the seven copied fields come from the update, id and image stay, and no other entry changes |
| RoomService.DeleteRoom | src/main/java/com/example/hotelbooking/service/RoomService.java:43-48 | Succeeds exactly for a stored id and removes exactly that room |
| RoomService.AddRoomKeepsCatalogueValid | src/main/java/com/example/hotelbooking/service/RoomService.java:16-18 | Adding keeps every room valid and room numbers unique |
| RoomService.UpdateRoomKeepsCatalogueValid | src/main/java/com/example/hotelbooking/service/RoomService.java:29-41 | Updating keeps every room valid and room numbers unique |
| RoomService.DeleteRoomKeepsCatalogueValid | src/main/java/com/example/hotelbooking/service/RoomService.java:43-48 | Deleting keeps every room valid and room numbers unique |
| RoomService.RoomOperationsKeepWellFormed | src/main/java/com/example/hotelbooking/service/RoomService.java:16-48 | Add, update and delete keep rooms under their ids and below the identity counter |
| RoomService.AddedRoomIsFound | src/main/java/com/example/hotelbooking/service/RoomService.java:16-27 | A room just added is what getRoomById returns for its id, and getAllRooms lists it |
| RoomService.DeletedRoomIsGone | src/main/java/com/example/hotelbooking/service/RoomService.java:43-48 | After a delete, getRoomById fails for the id and a second delete fails |
| UserService.FindByEmailOrNull | src/main/java/com/example/hotelbooking/service/UserService.java:53-55 | Finds a user exactly when one has the email, and then returns a stored user with that email |
| UserService.FindByEmail | src/main/java/com/example/hotelbooking/service/UserService.java:47-50 | Succeeds exactly when some user has the email, else UserNotFound |
| UserService.ExistsByEmail | src/main/java/com/example/hotelbooking/service/UserService.java:71-73 | True exactly when some stored user has the email |
| UserService.FindById | src/main/java/com/example/hotelbooking/service/UserService.java:76-79 | Returns the stored user exactly when the id is stored, else UserNotFound |
| UserService.ValidateCredentials | src/main/java/com/example/hotelbooking/service/UserService.java:58-68 | False when no user has the email; otherwise true exactly when the password matches that user's stored hash |
| UserService.RegisterUser | src/main/java/com/example/hotelbooking/service/UserService.java:25-39 | Fails exactly when the email is taken; otherwise stores a user with the form's name as name and username, its email, the encoded password, the role and a zero balance, under the next id |
| UserService.RegisterCustomer | src/main/java/com/example/hotelbooking/service/UserService.java:42-44 | Registers a CUSTOMER with zero balance exactly when the email is free |
| UserService.RegisterKeepsEmailsUnique | src/main/java/com/example/hotelbooking/service/UserService.java:25-39 | Registration keeps emails unique among stored users |
| UserService.RegisterKeepsWellFormed | src/main/java/com/example/hotelbooking/service/UserService.java:25-39 | Registration keeps the store well formed, and the new id was unused |
| UserService.RegisterCustomerIsCustomerRole | src/main/java/com/example/hotelbooking/service/UserService.java:42-44 | The one-argument overload is the two-argument one with the CUSTOMER role |
| UserService.RegisteredUserIsFound | src/main/java/com/example/hotelbooking/service/UserService.java:25-68 | A registered user is found by email and by id, exists by email, and signs in exactly when the encoder matches the given password |
| UserService.SecondRegistrationFails | src/main/java/com/example/hotelbooking/service/UserService.java:26-28 | Registering the same email a second time fails with EmailAlreadyRegistered |
| UserService.ExistsByEmailIffFound | src/main/java/com/example/hotelbooking/service/UserService.java:71-73 | existsByEmail holds exactly when findByEmailOrNull finds a user and exactly when findByEmail succeeds |

## Left out

- Concurrency: SERIALIZABLE isolation and the PESSIMISTIC_WRITE room lock are left out. Each operation is atomic and sequential, and rollback is "an error returns no state".
- Randomness and delay: `Math.random` and `Thread.sleep` in the card stubs are left out. The card's outcome is the `cardApproved` parameter.
- Floating point: `double` fields and `BigDecimal.valueOf(double)` are modelled as exact reals. The IEEE rounding of `doubleValue()` and Engine B's double products are not modelled.
- Clock: `LocalDate.now()` is the `today` parameter. The `bookingDate` timestamp that Engine B sets is not stored.
- Logging and pagination are left out. This covers the `Pageable` overloads of `getAllBookings` and `getBookingsByUserId`.
- List order is left out: queries return sets, so `findByUserIdOrderByBookingDateDesc` ordering and list duplicates are not modelled.
- Engine A's undeclared repository queries (`findConflictingBookings`, `countByUserIdAndStatus`, `findByUserIdOrderByBookingDateDesc`, `findAvailableRooms`) are abstract parameters. Their definitions are not part of this model, so properties that depend on them carry an exactness hypothesis.
- ImplProperties.CreateBookingKeepsPricesNonNegative: assumes nightly rates in whole cents, which the Room constraints do not demand. `ImplPricing.SubCentRateGoesNegative` shows a rate of 0.125 at a 100% discount priced at −0.01.
- BookingServiceImpl.PriceOfStay: its non-negativity clause carries the same whole-cent-rate assumption.
- Engine A's `UnsupportedPaymentMethodException` branch is left out: the payment method has only two values, so it cannot be reached.
- `searchBookings` is left out: it is a case-insensitive substring search over display fields that depends on locale-sensitive `toLowerCase`.
- Room setters are left out: each is a datatype update `room.(field := v)`, which changes only that field by construction.
- RoomService.AddRoom: always assigns the next identity. Saving a room that already carries an id, which JPA would treat as a merge, is not modelled.
- RoomService.DeleteRoom: the database's foreign-key check that refuses to delete a room with bookings is not modelled.
- RoomService.UpdateRoom: requires that every stored room sits under its own id, which every saved state satisfies.
- UserService.FindByEmail, UserService.FindByEmailOrNull and UserService.ValidateCredentials: require unique emails, the uniqueness the single-result repository query relies on. `validateCredentials`' catch of an encoder exception is not modelled.
- The password encoder is abstract: `encode` and `matches` are parameters.
- User.java, Booking.java and the repositories' entity classes are not part of this model beyond the fields the services read.
- Controllers, security configuration, the exception handler, the data loader, `UserRegistrationDTO`'s annotations and `BookingServiceTest.java` are left out: they are outside the booking engine. The test file's expected values appear only as the example lemmas.
