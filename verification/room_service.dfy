/**
 * RoomService: the room catalogue as operations on the stored rooms. A save runs
 * the entity's declared constraints and the unique room-number column; a save
 * that breaks one of them throws, and nothing is stored.
 */
module RoomService {
  import opened Wrappers
  import opened RoomModel
  import opened Entities

  datatype RoomError =
    | RoomNotFound          // IllegalArgumentException "Room not found with ID"
    | ConstraintViolation   // a declared field constraint fails at save
    | DuplicateRoomNumber   // the unique room-number column rejects the save

  /** No two stored rooms share a room number (the column's unique constraint). */
  predicate RoomNumbersUnique(rooms: map<RoomId, Room>) {
    forall i, j :: i in rooms && j in rooms && rooms[i].roomNumber == rooms[j].roomNumber ==> i == j
  }

  /** What every saved state of the catalogue satisfies. */
  predicate CatalogueValid(s: Store) {
    RoomsValid(s) && RoomNumbersUnique(s.rooms)
  }

  /** Some stored room other than `id` already carries `roomNumber`. */
  predicate NumberTaken(rooms: map<RoomId, Room>, id: RoomId, roomNumber: string) {
    exists j :: j in rooms && j != id && rooms[j].roomNumber == roomNumber
  }

  /** save: validate the entity, check the unique column, then store it under its id. */
  function Save(s: Store, room: Room): (r: Result<Store, RoomError>)
    ensures r.Ok? <==> ValidRoom(room) && !NumberTaken(s.rooms, room.id, room.roomNumber)
    ensures r.Ok? ==> r.value.rooms == s.rooms[room.id := room] && r.value.users == s.users && r.value.bookings == s.bookings
  {
    if !ValidRoom(room) then Err(ConstraintViolation)
    else if NumberTaken(s.rooms, room.id, room.roomNumber) then Err(DuplicateRoomNumber)
    else Ok(s.(rooms := s.rooms[room.id := room]))
  }

  /** addRoom: save a new room; the database assigns the next identity. */
  function AddRoom(s: Store, room: Room): (r: Result<(Store, Room), RoomError>)
    ensures r.Ok? <==> ValidRoom(room) && !NumberTaken(s.rooms, s.nextRoomId, room.roomNumber)
    ensures r.Ok? ==>
              var (t, saved) := r.value;
              && saved == room.(id := s.nextRoomId)
              && t.rooms == s.rooms[s.nextRoomId := saved]
              && t.nextRoomId == s.nextRoomId + 1
              && t.users == s.users && t.bookings == s.bookings
  {
    var saved := room.(id := s.nextRoomId);
    var t :- Save(s, saved);
    Ok((t.(nextRoomId := s.nextRoomId + 1), saved))
  }

  /** getAllRooms: every stored room. */
  function GetAllRooms(s: Store): (all: set<Room>)
    ensures forall id :: id in s.rooms ==> s.rooms[id] in all
    ensures forall r :: r in all ==> exists id :: id in s.rooms && s.rooms[id] == r
  {
    set id | id in s.rooms :: s.rooms[id]
  }

  /** getRoomById. */
  function GetRoomById(s: Store, id: RoomId): (r: Result<Room, RoomError>)
    ensures r.Ok? <==> id in s.rooms
    ensures r.Ok? ==> r.value == s.rooms[id]
    ensures r.Err? ==> r.error == RoomNotFound
  {
    if id in s.rooms then Ok(s.rooms[id]) else Err(RoomNotFound)
  }

  /**
   * updateRoom: copy seven fields of `updated` onto the stored room and save it;
   * the stored id and image keep their values.
   */
  function UpdateRoom(s: Store, id: RoomId, updated: Room): (r: Result<(Store, Room), RoomError>)
    requires forall j :: j in s.rooms ==> s.rooms[j].id == j
    ensures id !in s.rooms ==> r == Err(RoomNotFound)
    ensures r.Ok? ==>
              var (t, saved) := r.value;
              && id in s.rooms
              && saved.id == id && saved.imageUrl == s.rooms[id].imageUrl
              && saved.roomNumber == updated.roomNumber && saved.roomType == updated.roomType
              && saved.capacity == updated.capacity && saved.pricePerNight == updated.pricePerNight
              && saved.discountPercentage == updated.discountPercentage
              && saved.available == updated.available && saved.description == updated.description
              && t.rooms.Keys == s.rooms.Keys && t.rooms[id] == saved
              && (forall j :: j in s.rooms && j != id ==> t.rooms[j] == s.rooms[j])
              && t.users == s.users && t.bookings == s.bookings
    ensures id in s.rooms ==>
              (r.Ok? <==> ValidRoom(updated.(id := id, imageUrl := s.rooms[id].imageUrl))
                          && !NumberTaken(s.rooms, id, updated.roomNumber))
  {
    var existing :- GetRoomById(s, id);
    var copied := existing.(roomNumber := updated.roomNumber,
                            roomType := updated.roomType,
                            capacity := updated.capacity,
                            pricePerNight := updated.pricePerNight,
                            discountPercentage := updated.discountPercentage,
                            available := updated.available,
                            description := updated.description);
    assert copied == updated.(id := id, imageUrl := existing.imageUrl);
    var t :- Save(s, copied);
    Ok((t, copied))
  }

  /** deleteRoom: an absent id is an error; otherwise exactly that room is removed. */
  function DeleteRoom(s: Store, id: RoomId): (r: Result<Store, RoomError>)
    ensures r.Ok? <==> id in s.rooms
    ensures r.Ok? ==> r.value.rooms == s.rooms - {id} && r.value.users == s.users && r.value.bookings == s.bookings
    ensures r.Err? ==> r.error == RoomNotFound
  {
    if id !in s.rooms then Err(RoomNotFound)
    else Ok(s.(rooms := s.rooms - {id}))
  }

  // ---------------------------------------------------------------------------
  // Invariants

  /** Every saved room satisfies the entity's constraints, and room numbers stay unique. */
  lemma AddRoomKeepsCatalogueValid(s: Store, room: Room)
    requires CatalogueValid(s)
    requires AddRoom(s, room).Ok?
    ensures CatalogueValid(AddRoom(s, room).value.0)
  {
    var (t, saved) := AddRoom(s, room).value;
    forall i, j | i in t.rooms && j in t.rooms && t.rooms[i].roomNumber == t.rooms[j].roomNumber
      ensures i == j
    {
      if i != j && (i == saved.id || j == saved.id) {
        assert false;
      }
    }
  }

  lemma UpdateRoomKeepsCatalogueValid(s: Store, id: RoomId, updated: Room)
    requires forall j :: j in s.rooms ==> s.rooms[j].id == j
    requires CatalogueValid(s)
    requires UpdateRoom(s, id, updated).Ok?
    ensures CatalogueValid(UpdateRoom(s, id, updated).value.0)
  {
    var (t, saved) := UpdateRoom(s, id, updated).value;
    assert !NumberTaken(s.rooms, id, updated.roomNumber);
    forall i, j | i in t.rooms && j in t.rooms && t.rooms[i].roomNumber == t.rooms[j].roomNumber
      ensures i == j
    {
      if i != j && (i == id || j == id) {
        assert false;
      }
    }
  }

  lemma DeleteRoomKeepsCatalogueValid(s: Store, id: RoomId)
    requires CatalogueValid(s)
    requires DeleteRoom(s, id).Ok?
    ensures CatalogueValid(DeleteRoom(s, id).value)
  {
  }

  /** The room operations keep the store well formed: rooms under their ids, ids below the counter. */
  lemma RoomOperationsKeepWellFormed(s: Store, id: RoomId, room: Room)
    requires WellFormed(s)
    ensures AddRoom(s, room).Ok? ==> WellFormed(AddRoom(s, room).value.0)
    ensures UpdateRoom(s, id, room).Ok? ==> WellFormed(UpdateRoom(s, id, room).value.0)
    ensures DeleteRoom(s, id).Ok? ==> WellFormed(DeleteRoom(s, id).value)
  {
  }

  /** A room just added is what getRoomById returns for its new id, and getAllRooms lists it. */
  lemma AddedRoomIsFound(s: Store, room: Room)
    requires AddRoom(s, room).Ok?
    ensures var (t, saved) := AddRoom(s, room).value;
            GetRoomById(t, saved.id) == Ok(saved) && saved in GetAllRooms(t)
  {
  }

  /** After a delete the room is gone: getRoomById fails and a second delete fails too. */
  lemma DeletedRoomIsGone(s: Store, id: RoomId)
    requires DeleteRoom(s, id).Ok?
    ensures GetRoomById(DeleteRoom(s, id).value, id) == Err(RoomNotFound)
    ensures DeleteRoom(DeleteRoom(s, id).value, id) == Err(RoomNotFound)
  {
  }
}
