/**
 * The mock Quran table built by `fetchQuranData`: 604 entries computed from
 * their index, with a simplified surah, ayah and juz numbering.
 */
module QuranData {
  import Decimal

  datatype QuranPage = QuranPage(page: int, text: string, surah: int, ayah: int, juz: int)

  const PAGE_COUNT: nat := 604

  /** The opening formula every entry's text starts with. */
  const BASMALA: string := "بِسْمِ اللَّهِ الرَّحْمَٰنِ الرَّحِيمِ"

  /** The entry at index `i`. */
  function PageEntry(i: nat): QuranPage {
    QuranPage(
      i + 1,
      if i == 0 then BASMALA
      else BASMALA + " - Page " + Decimal.NatToString(i + 1) + " content would appear here.",
      i / 5 + 1,
      i % 5 + 1,
      i / 20 + 1)
  }

  /** The table: entry i for every index below 604. */
  function QuranTable(): (t: seq<QuranPage>) {
    seq(PAGE_COUNT, (i: int) requires 0 <= i => PageEntry(i))
  }

  /** 604 entries; entry i is page i + 1; only the first holds the bare basmala, the others add their page label. */
  lemma TableShape()
    ensures |QuranTable()| == 604
    ensures forall i :: 0 <= i < 604 ==> QuranTable()[i].page == i + 1
    ensures QuranTable()[0].text == BASMALA
    ensures forall i :: 1 <= i < 604 ==>
      QuranTable()[i].text == BASMALA + " - Page " + Decimal.NatToString(i + 1) + " content would appear here."
    ensures forall i :: 1 <= i < 604 ==> QuranTable()[i].text != BASMALA
  {
    forall i | 1 <= i < 604
      ensures QuranTable()[i].text != BASMALA
    {
      assert |QuranTable()[i].text| > |BASMALA|;
    }
  }

  /** Ayah numbers cycle through 1..5. */
  lemma AyahInRange(i: nat)
    requires i < 604
    ensures 1 <= QuranTable()[i].ayah <= 5
    ensures QuranTable()[i].ayah == i % 5 + 1
  {
  }

  /**
   * Surah numbers never decrease, and surah s covers the five pages 5s-4..5s while
   * they exist; the last page gets surah 121, so the numbering passes the 114 surahs.
   */
  lemma SurahLayout(i: nat, j: nat)
    requires i <= j < 604
    ensures QuranTable()[603].surah == 121
    ensures QuranTable()[i].surah <= QuranTable()[j].surah
    ensures QuranTable()[i].surah == QuranTable()[j].surah <==> i / 5 == j / 5
    ensures 5 * (QuranTable()[i].surah - 1) < QuranTable()[i].page <= 5 * QuranTable()[i].surah
  {
  }

  /** Juz numbers never decrease and pages 601..604 get juz 31: the table is not bounded by 30 juz. */
  lemma JuzLayout(i: nat, j: nat)
    requires i <= j < 604
    ensures QuranTable()[i].juz <= QuranTable()[j].juz
    ensures 20 * (QuranTable()[i].juz - 1) < QuranTable()[i].page <= 20 * QuranTable()[i].juz
    ensures QuranTable()[i].juz == 31 <==> i >= 600
  {
  }
}
