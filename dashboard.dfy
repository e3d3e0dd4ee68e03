/**
 * The dashboard's figures: the Ramadan status of the current instant, the
 * current Ramadan day and the days remaining, and the summary counts loaded
 * from the store.
 *
 * Instants are milliseconds since the epoch; the window is the same
 * March 11 - April 9, 2024 pair of midnights the Hijri date display uses.
 */
module Dashboard {
  import opened StorageService
  import JsMath
  import HijriDate

  const DAY_MS: int := 86400000
  const RAMADAN_START: int := 1710115200000
  const RAMADAN_END: int := 1712620800000

  datatype RamadanStatus = Upcoming | Ongoing | Completed

  /** Upcoming unless inside the closed window or past its end. */
  function Status(today: int, start: int, end: int): RamadanStatus {
    if today >= start && today <= end then Ongoing
    else if today > end then Completed
    else Upcoming
  }

  /** For an ordered window, each status holds exactly on its own stretch of time. */
  lemma StatusClassification(today: int, start: int, end: int)
    requires start <= end
    ensures Status(today, start, end) == Upcoming <==> today < start
    ensures Status(today, start, end) == Ongoing <==> start <= today <= end
    ensures Status(today, start, end) == Completed <==> today > end
  {
  }

  /**
   * Even for a window whose end precedes its start, the status is one of the three,
   * and "ongoing" is never reported then.
   */
  lemma StatusExactlyOne(today: int, start: int, end: int)
    ensures Status(today, start, end).Upcoming? || Status(today, start, end).Ongoing? || Status(today, start, end).Completed?
    ensures end < start ==> Status(today, start, end) != Ongoing
  {
  }

  /** The "Current Ramadan Day" figure: Math.ceil of the days elapsed since the start. */
  function RamadanDay(today: int): (r: int)
    ensures DAY_MS * (r - 1) < today - RAMADAN_START <= DAY_MS * r
  {
    JsMath.CeilDiv(today - RAMADAN_START, DAY_MS)
  }

  function DaysRemaining(today: int): int {
    30 - RamadanDay(today)
  }

  /**
   * While ongoing the figure lies in 0..29 and the days remaining in 1..30; the
   * figure is 0 exactly at the opening instant and 29 at the closing one.
   */
  lemma OngoingDayRange(today: int)
    requires Status(today, RAMADAN_START, RAMADAN_END) == Ongoing
    ensures 0 <= RamadanDay(today) <= 29
    ensures 1 <= DaysRemaining(today) <= 30
    ensures RamadanDay(today) == 0 <==> today == RAMADAN_START
    ensures today == RAMADAN_END ==> RamadanDay(today) == 29
  {
    var x := today - RAMADAN_START;
    var d := RamadanDay(today);
    if d < 0 {
      JsMath.MulOrder(DAY_MS, d, -1);
    }
    if d > 29 {
      JsMath.MulOrder(DAY_MS, 29, d - 1);
    }
    if d == 0 {
      assert x == 0;
    }
    if today == RAMADAN_END {
      assert x == 29 * DAY_MS;
      JsMath.MulOrder(DAY_MS, d, 29);
      JsMath.MulOrder(DAY_MS, 29, d);
    }
  }

  /**
   * The dashboard and the Hijri date display disagree by one exactly when the
   * elapsed time is a whole number of days (the opening midnight among them):
   * the Hijri display counts from 1 with a floor, the dashboard from 0 with a ceiling.
   */
  lemma DayAgreesWithHijriDate(today: int)
    requires Status(today, RAMADAN_START, RAMADAN_END) == Ongoing
    ensures HijriDate.IsRamadan(today)
    ensures (today - RAMADAN_START) % DAY_MS == 0 ==> HijriDate.RamadanDay(today) == RamadanDay(today) + 1
    ensures (today - RAMADAN_START) % DAY_MS != 0 ==> HijriDate.RamadanDay(today) == RamadanDay(today)
  {
    var x := today - RAMADAN_START;
    var f := JsMath.FloorDiv(x, DAY_MS);
    var c := RamadanDay(today);
    var q, r := x / DAY_MS, x % DAY_MS;
    JsMath.ModUnique(x, DAY_MS, q, r);
    // floor and ceiling are both determined by q and whether r is zero
    JsMath.MulOrder(DAY_MS, f, q);
    JsMath.MulOrder(DAY_MS, q, f);
    if r == 0 {
      JsMath.MulOrder(DAY_MS, c, q);
      JsMath.MulOrder(DAY_MS, q, c);
    } else {
      JsMath.MulOrder(DAY_MS, c, q + 1);
      JsMath.MulOrder(DAY_MS, q + 1, c);
    }
  }

  datatype Summary = Summary(missedFasts: int, totalTrackedDays: int, quranJuz: int, quranPage: int)

  /** The four figures loaded once when the dashboard mounts; juz and page stay 0 without saved progress. */
  function LoadSummary(store: LocalStore): (s: Summary)
    reads store
    requires store.Valid()
    ensures s.totalTrackedDays == |store.GetFastingDays()|
    ensures s.missedFasts == |store.GetMissedFastingDays()|
    ensures store.GetQuranProgress().None? ==> s.quranJuz == 0 && s.quranPage == 0
    ensures store.GetQuranProgress().Some? ==>
      s.quranJuz == store.GetQuranProgress().value.juz && s.quranPage == store.GetQuranProgress().value.page
  {
    var progress := store.GetQuranProgress();
    Summary(|store.GetMissedFastingDays()|, |store.GetFastingDays()|,
            if progress.Some? then progress.value.juz else 0,
            if progress.Some? then progress.value.page else 0)
  }

  /** The missed count never exceeds the tracked count: the missed list filters the tracked one. */
  lemma MissedWithinTracked(store: LocalStore)
    requires store.Valid()
    ensures 0 <= LoadSummary(store).missedFasts <= LoadSummary(store).totalTrackedDays
  {
  }
}
