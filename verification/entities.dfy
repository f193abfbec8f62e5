/**
 * The persisted state both booking engines work on: users, rooms and bookings
 * keyed by their database identities, with the identity counters the database
 * draws new ids from.
 */
module Entities {
  import opened Wrappers
  import opened Calendar
  import opened RoomModel

  type UserId = int
  type BookingId = int

  datatype Role = Admin | Customer

  datatype PaymentMethod = AccountBalance | CreditCard

  datatype BookingStatus = Pending | Confirmed | Cancelled

  datatype User = User(
    id: UserId,
    fullName: string,
    email: string,
    username: string,
    password: string,
    role: Role,
    accountBalance: real)

  /** A booking refers to its user and room by id; the booking timestamp is not modelled. */
  datatype Booking = Booking(
    id: BookingId,
    userId: UserId,
    roomId: RoomId,
    checkIn: Day,
    checkOut: Day,
    totalPrice: real,
    paymentMethod: PaymentMethod,
    status: BookingStatus)

  datatype Store = Store(
    users: map<UserId, User>,
    rooms: map<RoomId, Room>,
    bookings: map<BookingId, Booking>,
    nextUserId: int,
    nextRoomId: int,
    nextBookingId: int)

  /** The arguments of a booking request, each of which may be null. */
  datatype Request = Request(
    userId: Option<UserId>,
    roomId: Option<RoomId>,
    checkIn: Option<Day>,
    checkOut: Option<Day>,
    paymentMethod: Option<PaymentMethod>)

  /** The arguments of a booking request once none of them is null. */
  datatype Params = Params(
    userId: UserId,
    roomId: RoomId,
    checkIn: Day,
    checkOut: Day,
    paymentMethod: PaymentMethod)

  predicate AllPresent(req: Request) {
    req.userId.Some? && req.roomId.Some? && req.checkIn.Some? && req.checkOut.Some? && req.paymentMethod.Some?
  }

  /** The arguments of a request in which none is null. */
  function ParamsOf(req: Request): (p: Params)
    requires AllPresent(req)
    ensures Request(Some(p.userId), Some(p.roomId), Some(p.checkIn), Some(p.checkOut), Some(p.paymentMethod)) == req
  {
    Params(req.userId.value, req.roomId.value, req.checkIn.value, req.checkOut.value, req.paymentMethod.value)
  }

  /** The stay [b.checkIn, b.checkOut) of a booking of room `roomId` meets [checkIn, checkOut). */
  predicate Overlaps(b: Booking, roomId: RoomId, checkIn: Day, checkOut: Day) {
    b.roomId == roomId && b.checkIn < checkOut && checkIn < b.checkOut
  }

  /** No two bookings whose status is in `active` hold the same room on the same night. */
  predicate NoDoubleBooking(bookings: map<BookingId, Booking>, active: set<BookingStatus>) {
    forall i, j ::
      i in bookings && j in bookings && i != j
      && bookings[i].status in active && bookings[j].status in active
      ==> !Overlaps(bookings[j], bookings[i].roomId, bookings[i].checkIn, bookings[i].checkOut)
  }

  /**
   * What the database guarantees of every stored state: each entity sits under its
   * own id, ids come from below the identity counters, and a booking's user exists
   * (the booking's foreign key).
   */
  predicate WellFormed(s: Store) {
    && (forall id :: id in s.users ==> s.users[id].id == id && id < s.nextUserId)
    && (forall id :: id in s.rooms ==> s.rooms[id].id == id && id < s.nextRoomId)
    && (forall id :: id in s.bookings ==> s.bookings[id].id == id && id < s.nextBookingId)
    && (forall id :: id in s.bookings ==> s.bookings[id].userId in s.users)
  }

  /** Emails identify users: no two stored users share one. */
  predicate EmailsUnique(users: map<UserId, User>) {
    forall i, j :: i in users && j in users && users[i].email == users[j].email ==> i == j
  }

  predicate RoomsValid(s: Store) {
    forall id :: id in s.rooms ==> ValidRoom(s.rooms[id])
  }

  predicate BalancesNonNegative(s: Store) {
    forall id :: id in s.users ==> s.users[id].accountBalance >= 0.0
  }

  predicate PricesNonNegative(s: Store) {
    forall id :: id in s.bookings ==> s.bookings[id].totalPrice >= 0.0
  }

  /** Sets the status of a stored booking, leaving every other field and entity as it was. */
  function WithStatus(s: Store, id: BookingId, status: BookingStatus): (t: Store)
    requires id in s.bookings
    ensures t.bookings.Keys == s.bookings.Keys
    ensures t.bookings[id] == s.bookings[id].(status := status)
    ensures forall j :: j in s.bookings && j != id ==> t.bookings[j] == s.bookings[j]
    ensures t.users == s.users && t.rooms == s.rooms
  {
    s.(bookings := s.bookings[id := s.bookings[id].(status := status)])
  }

  /** Adds `amount` to a user's account balance (a negative amount debits it). */
  function Credit(s: Store, userId: UserId, amount: real): (t: Store)
    requires userId in s.users
    ensures t.users.Keys == s.users.Keys
    ensures t.users[userId] == s.users[userId].(accountBalance := s.users[userId].accountBalance + amount)
    ensures forall u :: u in s.users && u != userId ==> t.users[u] == s.users[u]
    ensures t.bookings == s.bookings && t.rooms == s.rooms
  {
    var user := s.users[userId];
    s.(users := s.users[userId := user.(accountBalance := user.accountBalance + amount)])
  }
}
