/**
 * The Quran tracker: loads the saved position or the default, saves it with a
 * timestamp, and shows page, juz and surah percentages without a cap.
 */
module QuranTracker {
  import opened Wrappers
  import opened StorageService
  import JsMath

  const TOTAL_JUZ: int := 30
  const TOTAL_PAGES: int := 604
  const TOTAL_SURAHS: int := 114

  /** Math.round(x / total * 100). */
  function Percent(x: int, total: int): (r: int)
    requires total > 0
    ensures 2 * total * r - total <= 200 * x < 2 * total * r + total
  {
    JsMath.RoundDiv(100 * x, total)
  }

  function PageProgress(page: int): int { Percent(page, TOTAL_PAGES) }
  function JuzProgress(juz: int): int { Percent(juz, TOTAL_JUZ) }
  function SurahProgress(surah: int): int { Percent(surah, TOTAL_SURAHS) }

  /** Up to its total, a percentage lies in 0..100 and reaches 100 at the total. */
  lemma PercentBounds(x: int, total: int)
    requires total > 0 && 0 <= x <= total
    ensures 0 <= Percent(x, total) <= 100
    ensures Percent(total, total) == 100
  {
    JsMath.RoundDivMonotone(0, 100 * x, total);
    JsMath.RoundDivMonotone(100 * x, 100 * total, total);
    JsMath.ModUnique(200 * total + total, 2 * total, 100, total);
  }

  /**
   * Nothing caps the percentage: it passes 100 exactly when x is at least
   * 201/200 of the total (page 608 of 604 already shows 101).
   */
  lemma PercentExceeds100(x: int, total: int)
    requires total > 0
    ensures Percent(x, total) > 100 <==> 200 * x >= 201 * total
  {
    var r, t := Percent(x, total), 2 * total;
    if r > 100 {
      JsMath.MulOrder(t, r, 100);
      assert t * r >= 202 * total;
    } else {
      JsMath.MulOrder(t, 100, r - 1);
      assert t * (r - 1) + t == t * r;
      assert t * r <= 200 * total;
    }
  }

  /**
   * Within the number inputs' ranges (juz 1..30, page 1..604, surah 1..114) the three
   * shown percentages lie in 0..100 and read 100 at the last juz, page and surah;
   * juz and surah never show 0, while the first three pages round down to 0.
   */
  lemma ShownPercentages(juz: int, page: int, surah: int)
    requires 1 <= juz <= TOTAL_JUZ && 1 <= page <= TOTAL_PAGES && 1 <= surah <= TOTAL_SURAHS
    ensures 1 <= JuzProgress(juz) <= 100 && 1 <= SurahProgress(surah) <= 100
    ensures 0 <= PageProgress(page) <= 100 && (PageProgress(page) == 0 <==> page <= 3)
    ensures JuzProgress(TOTAL_JUZ) == 100 && PageProgress(TOTAL_PAGES) == 100 && SurahProgress(TOTAL_SURAHS) == 100
  {
    PercentBounds(juz, TOTAL_JUZ);
    PercentBounds(page, TOTAL_PAGES);
    PercentBounds(surah, TOTAL_SURAHS);
    JsMath.RoundDivMonotone(100, 100 * juz, TOTAL_JUZ);
    JsMath.RoundDivMonotone(100, 100 * surah, TOTAL_SURAHS);
    if page <= 3 {
      JsMath.RoundDivMonotone(100 * page, 300, TOTAL_PAGES);
    } else {
      JsMath.RoundDivMonotone(400, 100 * page, TOTAL_PAGES);
    }
  }

  /** The tracker component's state; `store` is the shared local storage. */
  class Tracker {
    const store: LocalStore
    var juz: int
    var page: int
    var surah: int
    var ayah: int
    var lastUpdated: string

    constructor (store: LocalStore)
      ensures this.store == store
      ensures juz == 1 && page == 1 && surah == 1 && ayah == 1 && lastUpdated == ""
    {
      this.store := store;
      juz, page, surah, ayah, lastUpdated := 1, 1, 1, 1, "";
    }

    /** The load effect: the saved record if there is one, otherwise the default stamped `now`. */
    method Load(now: string)
      requires store.Valid()
      modifies this
      ensures var shown := store.GetQuranProgress().GetOr(DefaultQuranProgress(now));
        QuranProgress(juz, page, surah, ayah, lastUpdated) == shown
      ensures store.GetQuranProgress().None? ==>
        juz == 1 && page == 1 && surah == 1 && ayah == 1 && lastUpdated == now
    {
      var saved := store.GetQuranProgress();
      var progress := if saved.Some? then saved.value else DefaultQuranProgress(now);
      juz, page, surah, ayah, lastUpdated := progress.juz, progress.page, progress.surah, progress.ayah, progress.lastUpdated;
    }

    /** `handleSave`: stores the four fields stamped `now`, and shows that same stamp. */
    method HandleSave(now: string)
      requires store.Valid()
      modifies this, store
      ensures store.Valid()
      ensures store.GetQuranProgress() == Some(QuranProgress(juz, page, surah, ayah, now))
      ensures store.items == old(store.items)[QURAN_PROGRESS_KEY := ProgressRecord(QuranProgress(juz, page, surah, ayah, now))]
      ensures store.GetFastingDays() == old(store.GetFastingDays())
      ensures lastUpdated == store.GetQuranProgress().value.lastUpdated
      ensures juz == old(juz) && page == old(page) && surah == old(surah) && ayah == old(ayah)
    {
      var progress := QuranProgress(juz, page, surah, ayah, now);
      store.SaveQuranProgress(progress);
      lastUpdated := progress.lastUpdated;
    }

    /** The number inputs set one field each. */
    method SetJuz(value: int)
      modifies this
      ensures juz == value && page == old(page) && surah == old(surah) && ayah == old(ayah) && lastUpdated == old(lastUpdated)
    {
      juz := value;
    }

    method SetPage(value: int)
      modifies this
      ensures page == value && juz == old(juz) && surah == old(surah) && ayah == old(ayah) && lastUpdated == old(lastUpdated)
    {
      page := value;
    }

    method SetSurah(value: int)
      modifies this
      ensures surah == value && juz == old(juz) && page == old(page) && ayah == old(ayah) && lastUpdated == old(lastUpdated)
    {
      surah := value;
    }

    method SetAyah(value: int)
      modifies this
      ensures ayah == value && juz == old(juz) && page == old(page) && surah == old(surah) && lastUpdated == old(lastUpdated)
    {
      ayah := value;
    }
  }
}
