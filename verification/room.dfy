/** The Room entity: a catalogue record and the Bean Validation constraints declared on its fields. */
module RoomModel {

  type RoomId = int

  datatype Room = Room(
    id: RoomId,
    roomNumber: string,
    roomType: string,
    capacity: int,
    pricePerNight: real,
    discountPercentage: real,
    available: bool,
    description: string,
    imageUrl: string)

  /** @NotBlank: some character survives String.trim, which strips every character up to U+0020. */
  predicate NotBlank(s: string) {
    exists i :: 0 <= i < |s| && s[i] > ' '
  }

  /**
   * String.length, which @Size measures: UTF-16 code units, so a character
   * outside the Basic Multilingual Plane counts twice.
   */
  function Utf16Length(s: string): (n: nat)
    ensures |s| <= n <= 2 * |s|
    ensures (forall i :: 0 <= i < |s| ==> s[i] as int <= 0xFFFF) ==> n == |s|
  {
    if |s| == 0 then 0 else (if s[0] as int > 0xFFFF then 2 else 1) + Utf16Length(s[1..])
  }

  /** Every constraint the entity declares: the room a save accepts. */
  predicate ValidRoom(r: Room) {
    && NotBlank(r.roomNumber)
    && NotBlank(r.roomType)
    && r.capacity >= 1
    && r.pricePerNight > 0.0
    && 0.0 <= r.discountPercentage <= 100.0
    && Utf16Length(r.description) <= 500
  }

  /**
   * A Room as the no-argument constructor leaves it: every field at its Java
   * default except `available`, which the field initialiser sets. The id stands
   * for the null id of an entity not yet saved.
   */
  function NewRoom(): (r: Room)
    ensures r.available
    ensures !ValidRoom(r)
  {
    Room(0, "", "", 0, 0.0, 0.0, true, "", "")
  }

  /** A room with a valid price and discount charges a non-negative discounted rate per night. */
  lemma ValidRoomDiscountedRate(r: Room)
    requires ValidRoom(r)
    ensures 0.0 <= r.pricePerNight * (1.0 - r.discountPercentage / 100.0) <= r.pricePerNight
  {
  }

  /** One emoji is one Dafny character but two UTF-16 units toward the 500-unit limit. */
  lemma AstralCharacterCountsTwice()
    ensures |"\U{1F600}"| == 1 && Utf16Length("\U{1F600}") == 2
  {
  }
}
