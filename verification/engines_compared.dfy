/**
 * The two engines side by side: where they accept the same requests and where
 * their prices and refunds part ways.
 */
module EnginesCompared {
  import opened Wrappers
  import opened Calendar
  import opened Money
  import opened RoomModel
  import opened Entities
  import Impl = BookingServiceImpl
  import Simple = BookingService

  /** Both engines apply the same three date rules, with the same 30-night limit. */
  lemma SameDateRules(checkIn: Day, checkOut: Day, today: Day)
    ensures Impl.DatesAcceptable(checkIn, checkOut, today) <==> Simple.ValidateBookingDates(checkIn, checkOut, today).Pass?
  {
  }

  /**
   * The stricter engine's one validation step accepts exactly what the simpler
   * engine's null check and date check accept together; a request with a null
   * field is rejected by both, for a missing field.
   */
  lemma SameNullChecks(req: Request, today: Day)
    ensures Simple.ValidateBookingInput(req).Ok? <==> AllPresent(req)
    ensures Impl.ValidateBookingInput(req, today).Ok?
            <==> Simple.ValidateBookingInput(req).Ok? && Simple.ValidateBookingDates(req.checkIn.value, req.checkOut.value, today).Pass?
    ensures !AllPresent(req) ==>
              && Impl.ValidateBookingInput(req, today).Err?
              && Impl.ValidateBookingInput(req, today).error.reason in {Impl.UserIdMissing, Impl.RoomIdMissing, Impl.CheckInMissing, Impl.CheckOutMissing, Impl.PaymentMethodMissing}
  {
  }

  /**
   * Off-season the stricter engine's price is within 0.011 of the simpler
   * engine's unrounded price for the same stay.
   */
  lemma OffSeasonPricesAgree(room: Room, checkIn: Day, checkOut: Day)
    requires 0.0 <= room.discountPercentage && checkIn <= checkOut
    ensures Abs(Impl.PriceOfStay(room, checkOut - checkIn, false) - Simple.TotalAmount(room, checkIn, checkOut)) <= 0.011
  {
    PricesAgree(room, checkIn, checkOut, false);
  }

  /**
   * In high season the stricter engine charges the simpler engine's price plus
   * the 20% surcharge, again within 0.011.
   */
  lemma HighSeasonPricesAgree(room: Room, checkIn: Day, checkOut: Day)
    requires 0.0 <= room.discountPercentage && checkIn <= checkOut
    ensures Abs(Impl.PriceOfStay(room, checkOut - checkIn, true) - 1.2 * Simple.TotalAmount(room, checkIn, checkOut)) <= 0.011
  {
    PricesAgree(room, checkIn, checkOut, true);
  }

  lemma PricesAgree(room: Room, checkIn: Day, checkOut: Day, high: bool)
    requires 0.0 <= room.discountPercentage && checkIn <= checkOut
    ensures Abs(Impl.PriceOfStay(room, checkOut - checkIn, high)
                - (if high then 1.2 else 1.0) * Simple.TotalAmount(room, checkIn, checkOut)) <= 0.011
  {
    var nights := checkOut - checkIn;
    var base := Impl.BasePrice(room, nights);
    var price := Impl.PriceOfStay(room, nights, high);
    var exact := Impl.ExactPriceOfBase(base, room.discountPercentage, high);
    var simple := Simple.TotalAmount(room, checkIn, checkOut);
    PriceOfStayOfBase(room, nights, high, base);
    Impl.PriceOfBaseNearExact(base, room.discountPercentage, high);
    ExactPriceIsTotalAmount(room, checkIn, checkOut, base, high);
    assert Abs(price - exact) <= 0.011;
    assert exact == (if high then 1.2 else 1.0) * simple;
  }

  lemma PriceOfStayOfBase(room: Room, nights: int, high: bool, base: real)
    requires base == Impl.BasePrice(room, nights)
    ensures Impl.PriceOfStay(room, nights, high) == Impl.PriceOfBase(base, room.discountPercentage, high)
  {
  }

  /** The exact (unrounded) price of the stricter engine is the simpler engine's price, times the season's factor. */
  lemma ExactPriceIsTotalAmount(room: Room, checkIn: Day, checkOut: Day, base: real, high: bool)
    requires base == Impl.BasePrice(room, checkOut - checkIn)
    ensures Impl.ExactPriceOfBase(base, room.discountPercentage, high)
            == (if high then 1.2 else 1.0) * Simple.TotalAmount(room, checkIn, checkOut)
  {
    var p := room.pricePerNight;
    var d := room.discountPercentage;
    var n := (checkOut - checkIn) as real;
    assert base - base * d / 100.0 == n * (p * (1.0 - d / 100.0));
  }

  /**
   * Cancelling the same booking in both engines: for an account-balance payment
   * the simpler engine refunds exactly a tenth of the price more, the stricter
   * engine's cancellation fee; a card payer is credited by neither. Either way
   * the bookings end up the same.
   */
  lemma RefundsDiffer(s: Store, today: Day, id: BookingId)
    requires WellFormed(s)
    requires Simple.CancelBooking(s, today, id).Ok?
    ensures var b := s.bookings[id];
            var simple := Simple.CancelBooking(s, today, id).value;
            var strict := Impl.CancelAndRefund(s, id);
            && simple.bookings == strict.bookings
            && simple.users[b.userId].accountBalance - strict.users[b.userId].accountBalance
               == (if b.paymentMethod == AccountBalance then 0.1 * b.totalPrice else 0.0)
            && (b.paymentMethod == CreditCard ==> simple.users == s.users && strict.users == s.users)
  {
    var b := s.bookings[id];
    var simple := Simple.CancelBooking(s, today, id).value;
    var strict := Impl.CancelAndRefund(s, id);
    if b.paymentMethod == CreditCard {
      assert simple.users[b.userId] == s.users[b.userId];
      assert strict.users[b.userId] == s.users[b.userId];
    }
  }
}
