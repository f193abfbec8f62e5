/**
 * Properties of the stricter engine's pricing: the season test on calendar
 * months, the sign of the price, and the values the engine's own examples give.
 */
module ImplPricing {
  import opened Calendar
  import opened Money
  import opened RoomModel
  import opened BookingServiceImpl

  /** A stay is in high season exactly when its check-in or check-out date falls in December or January. */
  lemma HighSeasonMonths(checkIn: Civil, checkOut: Civil)
    requires ValidCivil(checkIn) && ValidCivil(checkOut)
    ensures IsHighSeason(EpochDayOf(checkIn), EpochDayOf(checkOut))
            <==> checkIn.month in {12, 1} || checkOut.month in {12, 1}
  {
    CivilOfEpochDayOf(checkIn);
    CivilOfEpochDayOf(checkOut);
  }

  /**
   * Without whole cents the bound fails: a rate of 0.125 for one night at a 100%
   * discount rounds the discount up to 0.13, and the price to -0.01.
   */
  lemma SubCentRateGoesNegative()
    ensures PriceOfBase(0.125, 100.0, false) == -0.01
  {
    assert (0.125 * 100.0 / 100.0 * 100.0 + 0.5).Floor == 13;
    assert RoundHalfUp2(0.125 * 100.0 / 100.0) == 0.13;
    assert DiscountAmount(0.125, 100.0) == 0.13;
    assert (0.005 * 100.0 + 0.5).Floor == 1;
    assert RoundHalfUp2(0.125 - 0.13) == -0.01;
  }

  /** Two nights at 100 with a 10% discount in off-season cost 180. */
  lemma DiscountExample()
    ensures PriceOfBase(200.0, 10.0, false) == 180.0
  {
    assert (200.0 * 10.0 / 100.0 * 100.0 + 0.5).Floor == 2000;
    assert DiscountAmount(200.0, 10.0) == 20.0;
    assert (180.0 * 100.0 + 0.5).Floor == 18000;
  }

  /** The same two nights with no discount cost 240 in high season. */
  lemma HighSeasonExample()
    ensures PriceOfBase(200.0, 0.0, true) == 240.0
  {
    assert DiscountAmount(200.0, 0.0) == 0.0;
    assert (200.0 * 1.2 * 100.0 + 0.5).Floor == 24000;
  }

  /** 2024-06-01 to 2024-06-03 is off-season. */
  lemma JuneIsOffSeason()
    ensures !IsHighSeason(EpochDayOf(Civil(2024, 6, 1)), EpochDayOf(Civil(2024, 6, 3)))
  {
    HighSeasonMonths(Civil(2024, 6, 1), Civil(2024, 6, 3));
  }

  /** 2024-12-30 to 2025-01-02 is high season. */
  lemma NewYearIsHighSeason()
    ensures IsHighSeason(EpochDayOf(Civil(2024, 12, 30)), EpochDayOf(Civil(2025, 1, 2)))
  {
    HighSeasonMonths(Civil(2024, 12, 30), Civil(2025, 1, 2));
  }

  /** A double room at 100 a night with a 10% discount, booked from 2024-06-01 to 2024-06-03, costs 180. */
  lemma JuneStayExample()
    ensures CalculateTotalPrice(Room(1, "101", "Double", 2, 100.0, 10.0, true, "", ""),
                                EpochDayOf(Civil(2024, 6, 1)), EpochDayOf(Civil(2024, 6, 3))) == 180.0
  {
    var room := Room(1, "101", "Double", 2, 100.0, 10.0, true, "", "");
    var checkIn := EpochDayOf(Civil(2024, 6, 1));
    var checkOut := EpochDayOf(Civil(2024, 6, 3));
    assert checkOut - checkIn == 2;
    JuneIsOffSeason();
    assert room.pricePerNight * (2 as real) == 200.0;
    DiscountExample();
    assert PriceOfStay(room, 2, false) == 180.0;
  }
}
