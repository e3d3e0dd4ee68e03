/**
 * The Quran progress tracker: the juz-name lookup, the clamped progress
 * percentage, the completion-pace estimate, and loading and saving progress.
 */
module QuranProgressTracker {
  import opened Wrappers
  import opened StorageService
  import JsMath

  const TOTAL_PAGES: int := 604

  const JUZ_NAMES: seq<string> := [
    "Alif Lām Mīm", "Sayaqūl", "Tilka'r-Rusul", "Lan Tanālu",
    "Wa'l-Muḥṣanāt", "Lā Yuḥibbu'llāh", "Wa Idhā Samiʿū",
    "Wa Law Annanā", "Qāla'l-Mala'u", "Wa A'lamū", "Yaʿtadhirūna",
    "Wa Mā Min Dābbatin", "Wa Mā Ubarri'u", "Rubamā", "Subḥāna'lladhī",
    "Qāla Alam", "Iqtaraba Li'n-Nās", "Qad Aflaḥa", "Wa Qāla'lladhīna",
    "A'man Khalaqa", "Utlu Mā Ūḥiya", "Wa Man Yaqnut", "Wa Mā Liya",
    "Fa Man Aẓlamu", "Ilayhi Yuraddu", "Ḥā Mīm", "Qāla Fa Mā Khaṭbukum",
    "Qad Samiʿa'llāhu", "Tabāraka'lladhī", "ʿAmma"
  ]

  /** `getJuzName`: the juz's name for 1..30, "" for any other number. */
  function JuzName(juzNumber: int): (name: string)
    ensures 1 <= juzNumber <= 30 ==> name == JUZ_NAMES[juzNumber - 1]
  {
    if juzNumber > 0 && juzNumber <= 30 then JUZ_NAMES[juzNumber - 1] else ""
  }

  /** The table has thirty names, none empty, so a juz has a name exactly when it is in 1..30. */
  lemma JuzNameDefinedExactlyInRange(juzNumber: int)
    ensures |JUZ_NAMES| == 30
    ensures JuzName(juzNumber) != "" <==> 1 <= juzNumber <= 30
  {
    assert forall i :: 0 <= i < |JUZ_NAMES| ==> |JUZ_NAMES[i]| > 0;
  }

  /** The progress bar: Math.round(100 * page / 604), capped at 100. */
  function ProgressPercent(page: int): int {
    JsMath.Min(100, JsMath.RoundDiv(100 * page, TOTAL_PAGES))
  }

  /** The percentage never exceeds 100, never decreases as the page grows, is 100 at page 604 and 0 at page 0. */
  lemma ProgressPercentProperties(page: int, later: int)
    requires page <= later
    ensures ProgressPercent(page) <= 100
    ensures ProgressPercent(page) <= ProgressPercent(later)
    ensures ProgressPercent(TOTAL_PAGES) == 100 && ProgressPercent(0) == 0
    ensures page >= 0 ==> ProgressPercent(page) >= 0
  {
    JsMath.RoundDivMonotone(100 * page, 100 * later, TOTAL_PAGES);
    if page >= 0 {
      JsMath.RoundDivMonotone(0, 100 * page, TOTAL_PAGES);
    }
  }

  /** The pace text: Math.floor(page / 604 * 30) days. */
  function DaysToCompletion(page: int): (days: int)
    ensures 604 * days <= 30 * page < 604 * days + 604
  {
    JsMath.FloorDiv(30 * page, TOTAL_PAGES)
  }

  /** For a page in 0..604 the pace lies in 0..30, and it grows with the page. */
  lemma DaysToCompletionBounds(page: int, later: int)
    requires 0 <= page <= later <= TOTAL_PAGES
    ensures 0 <= DaysToCompletion(page) <= DaysToCompletion(later) <= 30
  {
    JsMath.FloorDivMonotone(0, 30 * page, TOTAL_PAGES);
    JsMath.FloorDivMonotone(30 * page, 30 * later, TOTAL_PAGES);
    JsMath.FloorDivMonotone(30 * later, 30 * TOTAL_PAGES, TOTAL_PAGES);
  }

  /** The tracker component's state; `store` is the shared local storage. */
  class Tracker {
    const store: LocalStore
    var juz: int
    var page: int
    var surah: int
    var ayah: int
    var progress: int

    constructor (store: LocalStore)
      ensures this.store == store
      ensures juz == 1 && page == 1 && surah == 1 && ayah == 1 && progress == 0
    {
      this.store := store;
      juz, page, surah, ayah, progress := 1, 1, 1, 1, 0;
    }

    /** The load effect: the saved record and its percentage, or the all-ones default and 0. */
    method Load(now: string)
      requires store.Valid()
      modifies this
      ensures store.GetQuranProgress().Some? ==>
        var saved := store.GetQuranProgress().value;
        juz == saved.juz && page == saved.page && surah == saved.surah && ayah == saved.ayah
        && progress == ProgressPercent(saved.page)
      ensures store.GetQuranProgress().None? ==>
        juz == 1 && page == 1 && surah == 1 && ayah == 1 && progress == 0
    {
      var saved := store.GetQuranProgress();
      if saved.Some? {
        juz, page, surah, ayah := saved.value.juz, saved.value.page, saved.value.surah, saved.value.ayah;
        progress := JsMath.Min(100, JsMath.RoundDiv(100 * saved.value.page, TOTAL_PAGES));
      } else {
        var default := DefaultQuranProgress(now);
        juz, page, surah, ayah := default.juz, default.page, default.surah, default.ayah;
        progress := 0;
      }
    }

    /** `handleSaveProgress`: stores exactly the four current fields and shows the new percentage. */
    method HandleSaveProgress(now: string)
      requires store.Valid()
      modifies this, store
      ensures store.Valid()
      ensures store.GetQuranProgress() == Some(QuranProgress(juz, page, surah, ayah, now))
      ensures store.items == old(store.items)[QURAN_PROGRESS_KEY := ProgressRecord(QuranProgress(juz, page, surah, ayah, now))]
      ensures store.GetFastingDays() == old(store.GetFastingDays())
      ensures juz == old(juz) && page == old(page) && surah == old(surah) && ayah == old(ayah)
      ensures progress == ProgressPercent(page) && progress <= 100
    {
      store.SaveQuranProgress(QuranProgress(juz, page, surah, ayah, now));
      progress := JsMath.Min(100, JsMath.RoundDiv(100 * page, TOTAL_PAGES));
    }

    /** The number inputs set one field each. */
    method SetJuz(value: int)
      modifies this
      ensures juz == value && page == old(page) && surah == old(surah) && ayah == old(ayah) && progress == old(progress)
    {
      juz := value;
    }

    method SetPage(value: int)
      modifies this
      ensures page == value && juz == old(juz) && surah == old(surah) && ayah == old(ayah) && progress == old(progress)
    {
      page := value;
    }

    method SetSurah(value: int)
      modifies this
      ensures surah == value && juz == old(juz) && page == old(page) && ayah == old(ayah) && progress == old(progress)
    {
      surah := value;
    }

    method SetAyah(value: int)
      modifies this
      ensures ayah == value && juz == old(juz) && page == old(page) && surah == old(surah) && progress == old(progress)
    {
      ayah := value;
    }
  }
}
