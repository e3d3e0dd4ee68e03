/**
 * The integer part of the Hijri date display: the month-index clamp and name,
 * and the hard-coded Ramadan 1445 window with its day number.
 *
 * Instants are milliseconds since the epoch. The Julian-day arithmetic that
 * yields the Hijri day, month and year is not modelled; its results are inputs.
 */
module HijriDate {
  import JsMath

  const DAY_MS: int := 86400000

  /** March 11, 2024 and April 9, 2024, at midnight. */
  const RAMADAN_START: int := 1710115200000
  const RAMADAN_END: int := 1712620800000

  const ISLAMIC_MONTHS: seq<string> := [
    "Muharram", "Safar", "Rabi' al-Awwal", "Rabi' al-Thani",
    "Jumada al-Awwal", "Jumada al-Thani", "Rajab", "Sha'ban",
    "Ramadan", "Shawwal", "Dhu al-Qi'dah", "Dhu al-Hijjah"
  ]

  /** The 0-based month index: the computed 1-based month less one, clamped into 0..11. */
  function MonthIndex(hMonth: int): (i: int)
    ensures 0 <= i <= 11
    ensures 1 <= hMonth <= 12 ==> i == hMonth - 1
    ensures hMonth < 1 ==> i == 0
    ensures hMonth > 12 ==> i == 11
  {
    JsMath.Max(0, JsMath.Min(11, hMonth - 1))
  }

  function MonthName(hMonth: int): string {
    ISLAMIC_MONTHS[MonthIndex(hMonth)]
  }

  /** The month named "Ramadan" is index 8, the computed month 9. */
  lemma RamadanIsTheNinthMonth(hMonth: int)
    ensures ISLAMIC_MONTHS[8] == "Ramadan"
    ensures MonthName(hMonth) == "Ramadan" <==> hMonth == 9
  {
    assert forall i :: 0 <= i < 12 && i != 8 ==> ISLAMIC_MONTHS[i] != "Ramadan";
  }

  predicate IsRamadan(date: int) {
    date >= RAMADAN_START && date <= RAMADAN_END
  }

  /** 0 outside the window; inside, Math.floor of the days since the start, plus one. */
  function RamadanDay(date: int): (r: int)
    ensures !IsRamadan(date) ==> r == 0
    ensures IsRamadan(date) ==> DAY_MS * (r - 1) <= date - RAMADAN_START < DAY_MS * r
  {
    if IsRamadan(date) then JsMath.FloorDiv(date - RAMADAN_START, DAY_MS) + 1 else 0
  }

  /** Inside the window the day number lies in 1..30 and is 1 at the opening instant. */
  lemma RamadanDayRange(date: int)
    ensures !IsRamadan(date) ==> RamadanDay(date) == 0
    ensures IsRamadan(date) ==> 1 <= RamadanDay(date) <= 30
    ensures RamadanDay(RAMADAN_START) == 1
    ensures RamadanDay(RAMADAN_END) == 30
  {
    if IsRamadan(date) {
      JsMath.FloorDivMonotone(0, date - RAMADAN_START, DAY_MS);
      JsMath.FloorDivMonotone(date - RAMADAN_START, 29 * DAY_MS, DAY_MS);
      JsMath.ModUnique(29 * DAY_MS, DAY_MS, 29, 0);
    }
    JsMath.ModUnique(0, DAY_MS, 0, 0);
  }

  /** The window closes at midnight starting April 9: later on that day is outside it. */
  lemma LastDayMostlyOutside(date: int)
    requires RAMADAN_END < date < RAMADAN_END + DAY_MS
    ensures !IsRamadan(date) && RamadanDay(date) == 0
  {
  }

  datatype HijriInfo = HijriInfo(day: int, month: int, monthName: string, year: int, isRamadan: bool, ramadanDay: int)

  /**
   * `gregorianToHijri`, given the instant and the already rounded day, month and
   * year the calendar arithmetic computed for it.
   */
  function GregorianToHijri(date: int, hDay: int, hMonth: int, hYear: int): (h: HijriInfo)
    ensures 0 <= h.month <= 11 && h.monthName == ISLAMIC_MONTHS[h.month]
    ensures h.day == hDay && h.year == hYear
    ensures h.month == MonthIndex(hMonth) && h.ramadanDay == RamadanDay(date)
    ensures h.isRamadan <==> RAMADAN_START <= date <= RAMADAN_END
    ensures !h.isRamadan ==> h.ramadanDay == 0
    ensures h.isRamadan ==> 1 <= h.ramadanDay <= 30
  {
    RamadanDayRange(date);
    var index := MonthIndex(hMonth);
    HijriInfo(hDay, index, ISLAMIC_MONTHS[index], hYear, IsRamadan(date), RamadanDay(date))
  }
}
