/**
 * The Ramadan fasting calendar: the day formatters, the list of calendar days,
 * and the dialog that records a status and notes per date, both in the
 * component's state map and in storage.
 *
 * Calendar days are day numbers (days since 1970-01-01); the ISO key of a day
 * is a `DateKey`.
 */
module FastingCalendar {
  import opened Wrappers
  import opened StorageService
  import Decimal
  import Seqs
  import JsMath

  /** March 1, 2024 and March 30, 2024 as day numbers: the calendar's hard-coded window. */
  const RAMADAN_START_DAY: int := 19783
  const RAMADAN_END_DAY: int := 19812

  const SUFFIXES: seq<string> := ["th", "st", "nd", "rd"]

  /** The suffix `formatHijriDay` picks: indexed by the last digit when it is below 4 and the tens digit is not 1. */
  function OrdinalSuffix(day: nat): (s: string)
    ensures s in SUFFIXES
  {
    var m := day % 10;
    SUFFIXES[if m < 4 && day % 100 - m != 10 then m else 0]
  }

  /** `formatHijriDay`: the day's decimal digits followed by its English ordinal suffix. */
  function FormatHijriDay(day: nat): string {
    Decimal.NatToString(day) + OrdinalSuffix(day)
  }

  lemma LastDigitOfLastTwo(n: nat)
    ensures (n % 100) % 10 == n % 10
    ensures 10 <= n % 100 < 20 <==> n % 100 - n % 10 == 10
  {
    var q, r := n / 100, n % 100;
    var q', r' := r / 10, r % 10;
    assert n == 10 * (10 * q + q') + r';
    JsMath.ModUnique(n, 10, 10 * q + q', r');
  }

  /** "st", "nd", "rd" for days ending in 1, 2, 3, except 11, 12, 13 (mod 100); "th" otherwise. */
  lemma OrdinalSuffixRule(day: nat)
    ensures OrdinalSuffix(day) == "st" <==> day % 10 == 1 && day % 100 != 11
    ensures OrdinalSuffix(day) == "nd" <==> day % 10 == 2 && day % 100 != 12
    ensures OrdinalSuffix(day) == "rd" <==> day % 10 == 3 && day % 100 != 13
    ensures OrdinalSuffix(day) == "th" <==>
      (day % 10 == 0 || day % 10 >= 4 || (11 <= day % 100 <= 13))
  {
    LastDigitOfLastTwo(day);
  }

  /** The formatted day is its digits, which read back as the day, then a two-letter suffix. */
  lemma FormatHijriDayShape(day: nat)
    ensures var s := FormatHijriDay(day);
      && |s| >= 3
      && s[|s| - 2..] == OrdinalSuffix(day)
      && Decimal.AllDigits(s[..|s| - 2])
      && Decimal.ParseNat(s[..|s| - 2]) == day
  {
    var s := FormatHijriDay(day);
    assert s[..|s| - 2] == Decimal.NatToString(day);
    Decimal.ParseNatToString(day);
  }

  /** The fields of a JavaScript `Date` that `formatGregorianDate` reads; `month` is 0-based. */
  datatype CivilDate = CivilDate(year: nat, month: int, day: int)

  predicate ValidCivil(d: CivilDate) {
    0 <= d.month <= 11 && 1 <= d.day <= 31
  }

  /** `formatGregorianDate`: "dd-mm-yyyy". */
  function FormatGregorianDate(d: CivilDate): string
    requires ValidCivil(d)
  {
    Decimal.PadStart2(Decimal.NatToString(d.day)) + "-"
      + Decimal.PadStart2(Decimal.NatToString(d.month + 1)) + "-"
      + Decimal.NatToString(d.year)
  }

  /**
   * Two zero-padded digits of the day, a dash, two zero-padded digits of the
   * 1-based month, a dash, and the unpadded year: each field reads back.
   */
  lemma FormatGregorianDateFields(d: CivilDate)
    requires ValidCivil(d)
    ensures var s := FormatGregorianDate(d);
      && |s| >= 7 && s[2] == '-' && s[5] == '-'
      && Decimal.AllDigits(s[..2]) && Decimal.ParseNat(s[..2]) == d.day
      && Decimal.AllDigits(s[3..5]) && Decimal.ParseNat(s[3..5]) == d.month + 1
      && s[6..] == Decimal.NatToString(d.year) && Decimal.ParseNat(s[6..]) == d.year
  {
    var dd := Decimal.PadStart2(Decimal.NatToString(d.day));
    var mm := Decimal.PadStart2(Decimal.NatToString(d.month + 1));
    var yy := Decimal.NatToString(d.year);
    Decimal.TwoDigitsRoundTrip(d.day);
    Decimal.TwoDigitsRoundTrip(d.month + 1);
    Decimal.ParseNatToString(d.year);
    var s := FormatGregorianDate(d);
    assert s == dd + "-" + mm + "-" + yy;
    assert s[..2] == dd && s[3..5] == mm && s[6..] == yy;
  }

  /** `getRamadanDates`: every day from `start` to `end` inclusive, one after another. */
  method RamadanDates(start: int, end: int) returns (dates: seq<int>)
    ensures |dates| == if start <= end then end - start + 1 else 0
    ensures forall i :: 0 <= i < |dates| ==> dates[i] == start + i
  {
    dates := [];
    var current := start;
    while current <= end
      invariant current == start + |dates|
      invariant start <= end ==> current <= end + 1
      invariant start > end ==> dates == []
      invariant forall i :: 0 <= i < |dates| ==> dates[i] == start + i
    {
      dates := dates + [current];
      current := current + 1;
    }
  }

  /** The calendar's window holds the thirty days from March 1 to March 30, 2024. */
  method CalendarDays() returns (dates: seq<int>)
    ensures |dates| == 30
    ensures dates[0] == RAMADAN_START_DAY && dates[29] == RAMADAN_END_DAY
    ensures forall i :: 0 < i < |dates| ==> dates[i] == dates[i - 1] + 1
  {
    dates := RamadanDates(RAMADAN_START_DAY, RAMADAN_END_DAY);
  }

  /** What the component keeps per date. */
  datatype Entry = Entry(status: FastingStatus, notes: string)

  /** A stored record as the component keeps it: missing notes read as "". */
  function EntryOf(d: FastingDay): (e: Entry)
    ensures e.status == d.status
    ensures d.notes.Some? ==> e.notes == d.notes.value
    ensures d.notes.None? ==> e.notes == ""
  {
    Entry(d.status, d.notes.GetOr(""))
  }

  /** The state map the load effect builds from the stored list: one key per date, later entries win. */
  function EntryMap(days: seq<FastingDay>): map<DateKey, Entry>
    decreases |days|
  {
    if days == [] then map[]
    else EntryMap(days[..|days| - 1])[days[|days| - 1].date := EntryOf(days[|days| - 1])]
  }

  /** The state map has a key for each stored date and no other. */
  lemma {:induction false} EntryMapKeys(days: seq<FastingDay>)
    ensures EntryMap(days).Keys == set d | d in days :: d.date
    decreases |days|
  {
    if days != [] {
      var prefix, last := days[..|days| - 1], days[|days| - 1];
      assert days == prefix + [last];
      EntryMapKeys(prefix);
      assert (set d | d in days :: d.date) == (set d | d in prefix :: d.date) + {last.date};
    }
  }

  /** Appending a record sets its date's key. */
  lemma EntryMapSnoc(days: seq<FastingDay>, last: FastingDay)
    ensures EntryMap(days + [last]) == EntryMap(days)[last.date := EntryOf(last)]
  {
    assert (days + [last])[..|days|] == days;
  }

  /** Dropping a date's records drops exactly that key from the state map. */
  lemma {:induction false} EntryMapWithoutDate(days: seq<FastingDay>, k: DateKey)
    ensures EntryMap(WithoutDate(days, k)) == EntryMap(days) - {k}
    decreases |days|
  {
    if days != [] {
      var prefix, last := days[..|days| - 1], days[|days| - 1];
      assert days == prefix + [last];
      EntryMapWithoutDate(prefix, k);
      Seqs.FilterAppend(prefix, [last], (d: FastingDay) => d.date != k);
      EntryMapSnoc(prefix, last);
      var m, v := EntryMap(prefix), EntryOf(last);
      assert EntryMap(days) == m[last.date := v];
      if last.date == k {
        assert WithoutDate([last], k) == [];
        var wd, wp := WithoutDate(days, k), WithoutDate(prefix, k);
        assert wp + [] == wp;
        assert wd == wp;
        UpdateThenRemove(m, k, v);
      } else {
        assert WithoutDate([last], k) == [last];
        var w := WithoutDate(prefix, k);
        assert WithoutDate(days, k) == w + [last];
        EntryMapSnoc(w, last);
        UpdateCommutesWithRemove(m, last.date, v, k);
        assert EntryMap(WithoutDate(days, k)) == (m - {k})[last.date := v];
      }
    }
  }

  lemma UpdateThenRemove(m: map<DateKey, Entry>, k: DateKey, v: Entry)
    ensures m[k := v] - {k} == m - {k}
  {
    var l, r := m[k := v] - {k}, m - {k};
    assert l.Keys == r.Keys;
  }

  lemma UpdateCommutesWithRemove(m: map<DateKey, Entry>, a: DateKey, v: Entry, k: DateKey)
    requires a != k
    ensures (m - {k})[a := v] == m[a := v] - {k}
  {
    var l, r := (m - {k})[a := v], m[a := v] - {k};
    assert l.Keys == r.Keys;
    forall x | x in l
      ensures l[x] == r[x]
    {
    }
  }

  /**
   * Saving a day to storage and merging it into the state map agree: the map of
   * the upserted list is the old map with the day's key set.
   */
  lemma EntryMapUpsert(days: seq<FastingDay>, day: FastingDay)
    ensures EntryMap(Upsert(days, day)) == EntryMap(days)[day.date := EntryOf(day)]
  {
    var u := Upsert(days, day);
    assert u[..|u| - 1] == WithoutDate(days, day.date);
    EntryMapWithoutDate(days, day.date);
  }

  /** The status the grid shows for a date, which the dialog also opens with: "none" when nothing is recorded. */
  function StatusOf(data: map<DateKey, Entry>, key: DateKey): (s: Option<FastingStatus>)
    ensures s.Some? <==> key in data
    ensures s.Some? ==> s.value == data[key].status
  {
    if key in data then Some(data[key].status) else None
  }

  /** The number of dates whose recorded status is "missed". */
  function MissedCount(data: map<DateKey, Entry>): nat {
    |MissedKeys(data)|
  }

  function MissedKeys(data: map<DateKey, Entry>): set<DateKey> {
    set k | k in data && data[k].status == Missed
  }

  /** The missed count never exceeds the number of recorded dates. */
  lemma MissedCountBound(data: map<DateKey, Entry>)
    ensures MissedCount(data) <= |data|
  {
    SubsetCardinality(MissedKeys(data), data.Keys);
  }

  lemma {:induction false} SubsetCardinality(a: set<DateKey>, b: set<DateKey>)
    requires a <= b
    ensures |a| <= |b|
    decreases |b|
  {
    if a != {} {
      var x :| x in a;
      SubsetCardinality(a - {x}, b - {x});
    }
  }

  /** Recording a status for one date changes the missed count by that date's change only. */
  lemma MissedCountAfterSave(data: map<DateKey, Entry>, k: DateKey, e: Entry)
    ensures MissedCount(data[k := e]) ==
      MissedCount(data)
      - (if k in data && data[k].status == Missed then 1 else 0)
      + (if e.status == Missed then 1 else 0)
  {
    var before, after := MissedKeys(data), MissedKeys(data[k := e]);
    var others := before - {k};
    assert after == if e.status == Missed then others + {k} else others;
    assert before == if k in data && data[k].status == Missed then others + {k} else others;
  }

  /** `getStatusColor`. */
  function StatusColor(s: Option<FastingStatus>): string {
    match s
    case Some(Fasted) => "green.500"
    case Some(Missed) => "red.500"
    case _ => "gray.300"
  }

  /** `getStatusIcon`: a check mark for fasted, a cross for missed. */
  function StatusIcon(s: Option<FastingStatus>): string {
    match s
    case Some(Fasted) => "\U{2713}"
    case Some(Missed) => "\U{2717}"
    case _ => ""
  }

  /** Only fasted and missed are marked: an exempt or unrecorded date gets no icon and the neutral colour. */
  lemma StatusMarkings(s: Option<FastingStatus>)
    ensures StatusIcon(s) == "" <==> StatusColor(s) == "gray.300"
    ensures StatusIcon(s) != "" <==> s == Some(Fasted) || s == Some(Missed)
  {
  }

  /** The calendar component: the selected date, the dialog's status and notes, and the per-date map. */
  class Calendar {
    const store: LocalStore
    var selectedDate: Option<DateKey>
    /** The dialog's status; `None` is the component's "none". */
    var status: Option<FastingStatus>
    var notes: string
    var fastingData: map<DateKey, Entry>

    /** The state map mirrors what storage holds. */
    ghost predicate InSync()
      reads this, store
    {
      store.Valid() && fastingData == EntryMap(store.GetFastingDays())
    }

    constructor (store: LocalStore)
      ensures this.store == store
      ensures selectedDate == None && status == None && notes == "" && fastingData == map[]
    {
      this.store := store;
      selectedDate := None;
      status := None;
      notes := "";
      fastingData := map[];
    }

    /** The load effect: one map entry per stored date, a later record overriding an earlier one. */
    method LoadFromStorage()
      requires store.Valid()
      modifies this
      ensures InSync()
      ensures selectedDate == old(selectedDate) && status == old(status) && notes == old(notes)
    {
      var days := store.GetFastingDays();
      var dataMap: map<DateKey, Entry> := map[];
      for i := 0 to |days|
        invariant dataMap == EntryMap(days[..i])
      {
        assert days[..i + 1][..i] == days[..i];
        dataMap := dataMap[days[i].date := EntryOf(days[i])];
      }
      assert days[..|days|] == days;
      fastingData := dataMap;
    }

    /** `handleDateClick`: selects the date and pre-fills its recorded status and notes, or "none" and "". */
    method HandleDateClick(date: DateKey)
      modifies this
      ensures selectedDate == Some(date)
      ensures status == StatusOf(fastingData, date)
      ensures date in fastingData ==> status == Some(fastingData[date].status) && notes == fastingData[date].notes
      ensures date !in fastingData ==> status == None && notes == ""
      ensures fastingData == old(fastingData)
    {
      selectedDate := Some(date);
      if date in fastingData {
        status := Some(fastingData[date].status);
        notes := fastingData[date].notes;
      } else {
        status := None;
        notes := "";
      }
    }

    /**
     * `handleSave`: without a selected date or with status "none" nothing changes;
     * otherwise the record is upserted in storage and the date's map entry is set,
     * every other key being left alone.
     */
    method HandleSave()
      requires store.Valid()
      modifies this, store
      ensures store.Valid()
      ensures selectedDate == old(selectedDate) && status == old(status) && notes == old(notes)
      ensures selectedDate.None? || status.None? ==>
        fastingData == old(fastingData) && store.items == old(store.items)
      ensures selectedDate.Some? && status.Some? ==>
        && fastingData == old(fastingData)[selectedDate.value := Entry(status.value, notes)]
        && store.items == old(store.items)[FASTING_DAYS_KEY :=
             DayList(Upsert(old(store.GetFastingDays()), FastingDay(selectedDate.value, status.value, Some(notes))))]
        && store.GetFastingDays() ==
           Upsert(old(store.GetFastingDays()), FastingDay(selectedDate.value, status.value, Some(notes)))
      ensures old(InSync()) ==> InSync()
    {
      if selectedDate.None? || status.None? {
        return;
      }
      var day := FastingDay(selectedDate.value, status.value, Some(notes));
      ghost var before := store.GetFastingDays();
      store.SaveFastingDay(day);
      fastingData := fastingData[selectedDate.value := Entry(status.value, notes)];
      EntryMapUpsert(before, day);
    }
  }
}
