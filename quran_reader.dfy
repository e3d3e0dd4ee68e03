/**
 * The Quran reader: four position fields stepped page by page, with the juz
 * moved at every twentieth page and clamped to 1..30, and saved to storage.
 */
module QuranReader {
  import opened Wrappers
  import opened StorageService
  import JsMath

  const LAST_PAGE: int := 604
  const LAST_JUZ: int := 30
  const PAGES_PER_JUZ: int := 20

  datatype Position = Position(juz: int, page: int, surah: int, ayah: int)

  /** The state after `handleNextPage`: the page's successor and, leaving a multiple of 20, the next juz (at most 30). */
  function NextPosition(p: Position): Position {
    if p.page < LAST_PAGE then
      p.(page := p.page + 1,
         juz := if JsMath.JsRem(p.page, PAGES_PER_JUZ) == 0 then JsMath.Min(LAST_JUZ, p.juz + 1) else p.juz)
    else p
  }

  /** The state after `handlePrevPage`: the page's predecessor and, leaving a page 1 (mod 20), the previous juz (at least 1). */
  function PrevPosition(p: Position): Position {
    if p.page > 1 then
      p.(page := p.page - 1,
         juz := if JsMath.JsRem(p.page, PAGES_PER_JUZ) == 1 then JsMath.Max(1, p.juz - 1) else p.juz)
    else p
  }

  predicate InRange(p: Position) {
    1 <= p.page <= LAST_PAGE && 1 <= p.juz <= LAST_JUZ
  }

  /** Next at the last page and Prev at the first change nothing. */
  lemma EdgesAreFixed(p: Position)
    ensures p.page >= LAST_PAGE ==> NextPosition(p) == p
    ensures p.page <= 1 ==> PrevPosition(p) == p
  {
  }

  /** From a page in 1..604, Next and Prev stay in 1..604 and move by exactly one when they move. */
  lemma StepsStayInRange(p: Position)
    requires InRange(p)
    ensures InRange(NextPosition(p)) && InRange(PrevPosition(p))
    ensures NextPosition(p).page == if p.page < LAST_PAGE then p.page + 1 else p.page
    ensures PrevPosition(p).page == if p.page > 1 then p.page - 1 else p.page
  {
  }

  /** Next and Prev never touch surah or ayah. */
  lemma StepsKeepSurahAndAyah(p: Position)
    ensures NextPosition(p).surah == p.surah && NextPosition(p).ayah == p.ayah
    ensures PrevPosition(p).surah == p.surah && PrevPosition(p).ayah == p.ayah
  {
  }

  /** Next raises the juz only when leaving a page that is a multiple of 20, and then by one. */
  lemma NextJuzStep(p: Position)
    requires InRange(p)
    ensures NextPosition(p).juz != p.juz <==> p.page < LAST_PAGE && p.page % 20 == 0 && p.juz < LAST_JUZ
    ensures NextPosition(p).juz != p.juz ==> NextPosition(p).juz == p.juz + 1
  {
  }

  /** Prev lowers the juz only when leaving a page that is 1 (mod 20), and then by one. */
  lemma PrevJuzStep(p: Position)
    requires InRange(p)
    ensures PrevPosition(p).juz != p.juz <==> p.page > 1 && p.page % 20 == 1 && p.juz > 1
    ensures PrevPosition(p).juz != p.juz ==> PrevPosition(p).juz == p.juz - 1
  {
  }

  /** Next then Prev restores the page below the last; the juz too unless it was already 30. */
  lemma NextThenPrev(p: Position)
    requires 1 <= p.page < LAST_PAGE
    ensures PrevPosition(NextPosition(p)).page == p.page
    ensures 1 <= p.juz < LAST_JUZ ==> PrevPosition(NextPosition(p)) == p
  {
    var q := NextPosition(p);
    assert q.page == p.page + 1;
    if p.page % 20 == 19 {
      JsMath.ModUnique(p.page + 1, 20, p.page / 20 + 1, 0);
    } else {
      JsMath.ModUnique(p.page + 1, 20, p.page / 20, p.page % 20 + 1);
    }
  }

  /** Prev then Next restores the page above the first; the juz too unless it was already 1. */
  lemma PrevThenNext(p: Position)
    requires 1 < p.page <= LAST_PAGE
    ensures NextPosition(PrevPosition(p)).page == p.page
    ensures 1 < p.juz <= LAST_JUZ ==> NextPosition(PrevPosition(p)) == p
  {
    var q := PrevPosition(p);
    assert q.page == p.page - 1;
    if p.page % 20 == 0 {
      JsMath.ModUnique(p.page - 1, 20, p.page / 20 - 1, 19);
    } else {
      JsMath.ModUnique(p.page - 1, 20, p.page / 20, p.page % 20 - 1);
    }
  }

  /** The auto-save effect's guard: page, surah or ayah past the first. */
  predicate ShouldAutoSave(p: Position) {
    p.page > 1 || p.surah > 1 || p.ayah > 1
  }

  /** The juz alone never triggers the auto-save. */
  lemma AutoSaveIgnoresJuz(p: Position, juz: int)
    ensures ShouldAutoSave(p.(juz := juz)) == ShouldAutoSave(p)
    ensures !ShouldAutoSave(Position(juz, 1, 1, 1))
  {
  }

  /** The record written for position `p` at instant `now`. */
  function ProgressAt(p: Position, now: string): (r: QuranProgress)
    ensures r.juz == p.juz && r.page == p.page && r.surah == p.surah && r.ayah == p.ayah
    ensures r.lastUpdated == now
  {
    QuranProgress(p.juz, p.page, p.surah, p.ayah, now)
  }

  /** The reader component's state; `store` is the shared local storage. */
  class Reader {
    const store: LocalStore
    var juz: int
    var page: int
    var surah: int
    var ayah: int

    function Current(): (p: Position)
      reads this
    {
      Position(juz, page, surah, ayah)
    }

    constructor (store: LocalStore)
      ensures this.store == store && Current() == Position(1, 1, 1, 1)
    {
      this.store := store;
      juz, page, surah, ayah := 1, 1, 1, 1;
    }

    /** The load effect: a saved record replaces all four fields; without one nothing changes. */
    method LoadProgress()
      requires store.Valid()
      modifies this
      ensures store.GetQuranProgress().Some? ==>
        var saved := store.GetQuranProgress().value;
        Current() == Position(saved.juz, saved.page, saved.surah, saved.ayah)
      ensures store.GetQuranProgress().None? ==> Current() == old(Current())
    {
      var progress := store.GetQuranProgress();
      if progress.Some? {
        page, surah, ayah, juz := progress.value.page, progress.value.surah, progress.value.ayah, progress.value.juz;
      }
    }

    /** The auto-save effect, run after every change of position. */
    method AutoSave(now: string)
      requires store.Valid()
      modifies store
      ensures store.Valid()
      ensures ShouldAutoSave(Current()) ==>
        store.items == old(store.items)[QURAN_PROGRESS_KEY := ProgressRecord(ProgressAt(Current(), now))]
      ensures !ShouldAutoSave(Current()) ==> store.items == old(store.items)
    {
      if page > 1 || surah > 1 || ayah > 1 {
        store.SaveQuranProgress(QuranProgress(juz, page, surah, ayah, now));
      }
    }

    method HandleNextPage()
      modifies this
      ensures Current() == NextPosition(old(Current()))
    {
      if page < LAST_PAGE {
        if JsMath.JsRem(page, PAGES_PER_JUZ) == 0 {
          juz := JsMath.Min(LAST_JUZ, juz + 1);
        }
        page := page + 1;
      }
    }

    method HandlePrevPage()
      modifies this
      ensures Current() == PrevPosition(old(Current()))
    {
      if page > 1 {
        if JsMath.JsRem(page, PAGES_PER_JUZ) == 1 {
          juz := JsMath.Max(1, juz - 1);
        }
        page := page - 1;
      }
    }

    /** `handleBookmark` and the manual-save button: store exactly the current four fields. */
    method HandleBookmark(now: string)
      requires store.Valid()
      modifies store
      ensures store.Valid()
      ensures store.items == old(store.items)[QURAN_PROGRESS_KEY := ProgressRecord(ProgressAt(Current(), now))]
      ensures store.GetQuranProgress() == Some(ProgressAt(Current(), now))
      ensures store.GetFastingDays() == old(store.GetFastingDays())
    {
      store.SaveQuranProgress(QuranProgress(juz, page, surah, ayah, now));
    }

    /** The manual selectors set one field each. */
    method SelectJuz(value: int)
      modifies this
      ensures Current() == old(Current()).(juz := value)
    {
      juz := value;
    }

    method SelectPage(value: int)
      modifies this
      ensures Current() == old(Current()).(page := value)
    {
      page := value;
    }

    method SelectSurah(value: int)
      modifies this
      ensures Current() == old(Current()).(surah := value)
    {
      surah := value;
    }

    method SelectAyah(value: int)
      modifies this
      ensures Current() == old(Current()).(ayah := value)
    {
      ayah := value;
    }
  }
}
