/**
 * The adhkar panel: the three fixed lists served by category, the tab-to-category
 * mapping with its accordion reset, the shortened accordion label and the
 * repeat badge.
 *
 * The Arabic texts and translations of the entries are not reproduced; an
 * entry keeps its id, reference and repeat count.
 */
module AdhkarSection {
  import opened Wrappers
  import Decimal

  datatype Dhikr = Dhikr(id: int, reference: string, repeat: int)

  const MORNING_ADHKAR: seq<Dhikr> := [
    Dhikr(1, "Muslim", 1),
    Dhikr(2, "Tirmidhi", 1),
    Dhikr(3, "Ibn Majah", 1),
    Dhikr(4, "Abu Dawud", 3),
    Dhikr(5, "Abu Dawud", 3),
    Dhikr(6, "Abu Dawud", 7),
    Dhikr(7, "Muslim", 3)
  ]

  const EVENING_ADHKAR: seq<Dhikr> := [
    Dhikr(8, "Muslim", 1),
    Dhikr(9, "Tirmidhi", 1),
    Dhikr(10, "Abu Dawud", 1),
    Dhikr(11, "Abu Dawud", 1),
    Dhikr(12, "Abu Dawud", 3),
    Dhikr(13, "Muslim", 3)
  ]

  const GENERAL_ADHKAR: seq<Dhikr> := [
    Dhikr(14, "Bukhari, Muslim", 10),
    Dhikr(15, "Muslim", 100),
    Dhikr(16, "Bukhari", 100),
    Dhikr(17, "Muslim", 10),
    Dhikr(18, "Tirmidhi", 10),
    Dhikr(19, "Bukhari", 10)
  ]

  /** The ids of a list, in order. */
  function Ids(list: seq<Dhikr>): (r: seq<int>)
    ensures |r| == |list| && forall i :: 0 <= i < |list| ==> r[i] == list[i].id
  {
    seq(|list|, i requires 0 <= i < |list| => list[i].id)
  }

  /** "morning" and "evening" pick their lists; every other category gets the general one. */
  function MockAdhkar(category: string): (r: seq<Dhikr>)
    ensures category == "morning" ==> Ids(r) == [1, 2, 3, 4, 5, 6, 7]
    ensures category == "evening" ==> Ids(r) == [8, 9, 10, 11, 12, 13]
    ensures category != "morning" && category != "evening" ==> Ids(r) == [14, 15, 16, 17, 18, 19]
  {
    if category == "morning" then MORNING_ADHKAR
    else if category == "evening" then EVENING_ADHKAR
    else GENERAL_ADHKAR
  }

  /** Across the three lists taken together no id occurs twice, and every entry is said at least once. */
  lemma ListsAreWellFormed(category: string)
    ensures forall i, j :: 0 <= i < j < |MORNING_ADHKAR + EVENING_ADHKAR + GENERAL_ADHKAR| ==>
      (MORNING_ADHKAR + EVENING_ADHKAR + GENERAL_ADHKAR)[i].id != (MORNING_ADHKAR + EVENING_ADHKAR + GENERAL_ADHKAR)[j].id
    ensures forall d :: d in MockAdhkar(category) ==> d.repeat >= 1
  {
    var all := MORNING_ADHKAR + EVENING_ADHKAR + GENERAL_ADHKAR;
    assert forall i :: 0 <= i < |all| ==> all[i].id == i + 1;
  }

  /** Tab 0 is morning, tab 1 evening, any other tab general. */
  function CategoryForTab(index: int): (c: string)
    ensures index == 0 <==> c == "morning"
    ensures index == 1 <==> c == "evening"
    ensures c == "morning" || c == "evening" || c == "general"
  {
    if index == 0 then "morning" else if index == 1 then "evening" else "general"
  }

  /** The accordion header: the text itself up to 40 characters, otherwise its first 40 and an ellipsis. */
  function HeaderLabel(text: string): (r: string)
    ensures |r| <= 43
    ensures |text| <= 40 ==> r == text
    ensures |text| > 40 ==> |r| == 43 && r[..40] == text[..40] && r[40..] == "..."
  {
    if |text| > 40 then text[..40] + "..." else text
  }

  /**
   * The "Repeat n times" line, shown only when the entry is said more than once;
   * the number between the two words reads back as the repeat count.
   */
  function RepeatText(d: Dhikr): (r: Option<string>)
    ensures r.Some? <==> d.repeat > 1
    ensures r.Some? ==> |r.value| >= 14 && r.value[..7] == "Repeat " && r.value[|r.value| - 6..] == " times"
    ensures r.Some? ==> Decimal.AllDigits(r.value[7..|r.value| - 6]) && Decimal.ParseNat(r.value[7..|r.value| - 6]) == d.repeat
  {
    if d.repeat > 1 then
      var digits := Decimal.NatToString(d.repeat);
      var text := "Repeat " + digits + " times";
      assert text[7..|text| - 6] == digits;
      Decimal.ParseNatToString(d.repeat);
      Some(text)
    else None
  }

  /** The "nx" badge beside the label, under the same condition as the repeat line. */
  function RepeatBadge(d: Dhikr): (r: Option<string>)
    ensures r.Some? <==> RepeatText(d).Some?
    ensures r.Some? ==> |r.value| >= 2 && r.value[|r.value| - 1] == 'x'
    ensures r.Some? ==> Decimal.AllDigits(r.value[..|r.value| - 1]) && Decimal.ParseNat(r.value[..|r.value| - 1]) == d.repeat
  {
    if d.repeat > 1 then
      var digits := Decimal.NatToString(d.repeat);
      assert (digits + "x")[..|digits|] == digits;
      Decimal.ParseNatToString(d.repeat);
      Some(digits + "x")
    else None
  }

  class Section {
    var selectedCategory: string
    var expandedIndex: seq<int>

    constructor ()
      ensures selectedCategory == "morning" && expandedIndex == [0]
    {
      selectedCategory := "morning";
      expandedIndex := [0];
    }

    method HandleTabChange(index: int)
      modifies this
      ensures selectedCategory == CategoryForTab(index)
      ensures expandedIndex == [0]
    {
      if index == 0 {
        selectedCategory := "morning";
      } else if index == 1 {
        selectedCategory := "evening";
      } else {
        selectedCategory := "general";
      }
      expandedIndex := [0];
    }

    /** The accordion reports the indices it now has open. */
    method HandleAccordionChange(indices: seq<int>)
      modifies this
      ensures expandedIndex == indices && selectedCategory == old(selectedCategory)
    {
      expandedIndex := indices;
    }
  }
}
