/**
 * BookingRequestDTO: the form a customer submits, its declarative constraints
 * (five required fields and two date checks), and the night count derived from it.
 */
module BookingRequestDto {
  import opened Wrappers
  import opened Calendar
  import opened Entities
  import Impl = BookingServiceImpl
  import Simple = BookingService

  datatype BookingRequest = BookingRequest(
    userId: Option<UserId>,
    roomId: Option<int>,
    checkIn: Option<Day>,
    checkOut: Option<Day>,
    paymentMethod: Option<PaymentMethod>,
    notes: Option<string>)

  /** The @NotNull constraints: every field but the notes is required. */
  predicate RequiredPresent(dto: BookingRequest) {
    dto.userId.Some? && dto.roomId.Some? && dto.checkIn.Some? && dto.checkOut.Some? && dto.paymentMethod.Some?
  }

  /** isValidDateRange: vacuous while a date is missing, otherwise check-in strictly before check-out. */
  predicate IsValidDateRange(dto: BookingRequest) {
    dto.checkIn.None? || dto.checkOut.None? || dto.checkIn.value < dto.checkOut.value
  }

  /** isCheckInDateValid: vacuous while check-in is missing, otherwise check-in not before today. */
  predicate IsCheckInDateValid(dto: BookingRequest, today: Day) {
    dto.checkIn.None? || !(dto.checkIn.value < today)
  }

  /** Every declared constraint of the form holds. */
  predicate Valid(dto: BookingRequest, today: Day) {
    RequiredPresent(dto) && IsValidDateRange(dto) && IsCheckInDateValid(dto, today)
  }

  /** getNumberOfNights: the days between the dates when both are given, else 0. */
  function NumberOfNights(dto: BookingRequest): (nights: int)
    ensures dto.checkIn.None? || dto.checkOut.None? ==> nights == 0
    ensures dto.checkIn.Some? && dto.checkOut.Some? ==> dto.checkIn.value + nights == dto.checkOut.value
  {
    if dto.checkIn.Some? && dto.checkOut.Some? then dto.checkOut.value - dto.checkIn.value else 0
  }

  /** The arguments the form hands to createBooking; the notes go nowhere. */
  function ToRequest(dto: BookingRequest): (req: Request)
    ensures AllPresent(req) <==> RequiredPresent(dto)
    ensures RequiredPresent(dto) ==>
              ParamsOf(req) == Params(dto.userId.value, dto.roomId.value, dto.checkIn.value, dto.checkOut.value, dto.paymentMethod.value)
  {
    Request(dto.userId, dto.roomId, dto.checkIn, dto.checkOut, dto.paymentMethod)
  }

  // ---------------------------------------------------------------------------
  // Properties

  /** With both dates given, a valid range means at least one night, and conversely. */
  lemma NightsPositive(dto: BookingRequest)
    requires dto.checkIn.Some? && dto.checkOut.Some?
    ensures IsValidDateRange(dto) <==> NumberOfNights(dto) >= 1
  {
  }

  /**
   * The form's constraints plus the stay limit are exactly what the stricter
   * engine's input validation accepts.
   */
  lemma FormValidMeansImplAccepts(dto: BookingRequest, today: Day)
    ensures Impl.ValidateBookingInput(ToRequest(dto), today).Ok?
            <==> Valid(dto, today) && NumberOfNights(dto) <= Impl.MaxNights
  {
    var req := ToRequest(dto);
    if RequiredPresent(dto) {
      assert Impl.DatesAcceptable(req.checkIn.value, req.checkOut.value, today)
             <==> IsValidDateRange(dto) && IsCheckInDateValid(dto, today) && NumberOfNights(dto) <= Impl.MaxNights;
    }
  }

  /**
   * The same holds of the simpler engine's two validation steps: a valid form
   * within the stay limit passes both, and a form that passes both is valid.
   */
  lemma FormValidMeansSimpleAccepts(dto: BookingRequest, today: Day)
    ensures (Simple.ValidateBookingInput(ToRequest(dto)).Ok?
             && Simple.ValidateBookingDates(dto.checkIn.value, dto.checkOut.value, today).Pass?)
            <==> Valid(dto, today) && NumberOfNights(dto) <= Simple.MaxNights
  {
  }

  /** Forms that differ only in their notes are the same request. */
  lemma NotesIgnored(dto: BookingRequest, notes: Option<string>, today: Day)
    ensures ToRequest(dto.(notes := notes)) == ToRequest(dto)
    ensures Valid(dto.(notes := notes), today) <==> Valid(dto, today)
    ensures NumberOfNights(dto.(notes := notes)) == NumberOfNights(dto)
  {
  }
}
