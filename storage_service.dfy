/**
 * The local-storage service: fasting-day records kept as one list under the key
 * "fastingDays", and a single Quran-progress record under "quranProgress".
 * Browser storage is a map from key to value; JSON serialisation is the identity.
 */
module StorageService {
  import opened Wrappers
  import Seqs

  /** An ISO calendar date, "yyyy-mm-dd", used as the record key. */
  type DateKey = string

  datatype FastingStatus = Fasted | Missed | Exempt

  datatype FastingDay = FastingDay(date: DateKey, status: FastingStatus, notes: Option<string>)

  datatype QuranProgress = QuranProgress(juz: int, page: int, surah: int, ayah: int, lastUpdated: string)

  /** What a storage key can hold. Keys other than the two below are not interpreted here. */
  datatype Json =
    | DayList(days: seq<FastingDay>)
    | ProgressRecord(progress: QuranProgress)
    | Other(text: string)

  const FASTING_DAYS_KEY: string := "fastingDays"
  const QURAN_PROGRESS_KEY: string := "quranProgress"

  /** The stored entries whose date differs from `date`, in stored order. */
  function WithoutDate(days: seq<FastingDay>, date: DateKey): (r: seq<FastingDay>)
    ensures |r| <= |days|
    ensures forall i :: 0 <= i < |r| ==> r[i] in days && r[i].date != date
    ensures forall i :: 0 <= i < |days| && days[i].date != date ==> days[i] in r
  {
    Seqs.Filter(days, (d: FastingDay) => d.date != date)
  }

  /** The stored entries for `date`, in stored order. */
  function OnDate(days: seq<FastingDay>, date: DateKey): (r: seq<FastingDay>)
    ensures |r| <= |days|
    ensures forall i :: 0 <= i < |r| ==> r[i] in days && r[i].date == date
    ensures forall i :: 0 <= i < |days| && days[i].date == date ==> days[i] in r
  {
    Seqs.Filter(days, (d: FastingDay) => d.date == date)
  }

  predicate IsMissed(d: FastingDay) {
    d.status == Missed
  }

  /** The stored entries with status "missed", in stored order. */
  function MissedOnly(days: seq<FastingDay>): (r: seq<FastingDay>)
    ensures |r| <= |days|
    ensures forall i :: 0 <= i < |r| ==> r[i] in days && r[i].status == Missed
    ensures forall i :: 0 <= i < |days| && days[i].status == Missed ==> days[i] in r
  {
    Seqs.Filter(days, IsMissed)
  }

  /** The list `saveFastingDay` writes: the old entries for other dates, then `day`. */
  function Upsert(days: seq<FastingDay>, day: FastingDay): (r: seq<FastingDay>)
    ensures |r| >= 1 && r[|r| - 1] == day
  {
    WithoutDate(days, day.date) + [day]
  }

  /** After an upsert the list holds exactly one entry for the day's date: the new one, last. */
  lemma UpsertSingleEntry(days: seq<FastingDay>, day: FastingDay)
    ensures OnDate(Upsert(days, day), day.date) == [day]
    ensures Upsert(days, day)[|Upsert(days, day)| - 1] == day
  {
    var rest := WithoutDate(days, day.date);
    Seqs.FilterAppend(rest, [day], (d: FastingDay) => d.date == day.date);
    Seqs.FilterNone(rest, (d: FastingDay) => d.date == day.date);
    assert OnDate([day], day.date) == [day];
  }

  /** An upsert keeps every entry for another date, in the same relative order. */
  lemma UpsertKeepsOtherDates(days: seq<FastingDay>, day: FastingDay)
    ensures WithoutDate(Upsert(days, day), day.date) == WithoutDate(days, day.date)
    ensures forall e :: e != day.date ==> OnDate(Upsert(days, day), e) == OnDate(days, e)
  {
    var rest := WithoutDate(days, day.date);
    Seqs.FilterAppend(rest, [day], (d: FastingDay) => d.date != day.date);
    Seqs.FilterIdempotent(days, (d: FastingDay) => d.date != day.date);
    assert WithoutDate([day], day.date) == [];
    forall e | e != day.date
      ensures OnDate(Upsert(days, day), e) == OnDate(days, e)
    {
      OnDateOfWithout(days, day.date, e);
      Seqs.FilterAppend(rest, [day], (d: FastingDay) => d.date == e);
      assert OnDate([day], e) == [];
    }
  }

  /** Removing one date does not disturb the entries of another. */
  lemma {:induction false} OnDateOfWithout(days: seq<FastingDay>, removed: DateKey, e: DateKey)
    requires e != removed
    ensures OnDate(WithoutDate(days, removed), e) == OnDate(days, e)
  {
    if days != [] {
      OnDateOfWithout(days[1..], removed, e);
      var head := if days[0].date != removed then [days[0]] else [];
      assert WithoutDate(days, removed) == head + WithoutDate(days[1..], removed);
      Seqs.FilterAppend(head, WithoutDate(days[1..], removed), (d: FastingDay) => d.date == e);
    }
  }

  /** Saving the same day twice stores the same list as saving it once. */
  lemma UpsertIdempotent(days: seq<FastingDay>, day: FastingDay)
    ensures Upsert(Upsert(days, day), day) == Upsert(days, day)
  {
    UpsertKeepsOtherDates(days, day);
  }

  /** The new length: the old one, less the old entries for the date, plus one. */
  lemma UpsertLength(days: seq<FastingDay>, day: FastingDay)
    ensures |Upsert(days, day)| == |days| - |OnDate(days, day.date)| + 1
  {
    Seqs.FilterPartition(days, (d: FastingDay) => d.date != day.date, (d: FastingDay) => d.date == day.date);
  }

  /** The missed entries of a list grown at the end are the old ones, then possibly the new one. */
  lemma MissedOnlyAppend(days: seq<FastingDay>, day: FastingDay)
    ensures MissedOnly(days + [day]) == MissedOnly(days) + (if day.status == Missed then [day] else [])
  {
    Seqs.FilterAppend(days, [day], IsMissed);
  }

  /** The record `getDefaultQuranProgress` returns at instant `now`. */
  function DefaultQuranProgress(now: string): (p: QuranProgress)
    ensures p.juz == 1 && p.page == 1 && p.surah == 1 && p.ayah == 1
    ensures p.lastUpdated == now
  {
    QuranProgress(1, 1, 1, 1, now)
  }

  /** The browser's local storage, shared by every component. */
  class LocalStore {
    var items: map<string, Json>

    /** The two modelled keys hold values of their own shape. */
    ghost predicate Valid()
      reads this
    {
      && (FASTING_DAYS_KEY in items ==> items[FASTING_DAYS_KEY].DayList?)
      && (QURAN_PROGRESS_KEY in items ==> items[QURAN_PROGRESS_KEY].ProgressRecord?)
    }

    constructor ()
      ensures Valid() && items == map[]
    {
      items := map[];
    }

    /** `getFastingDays`: the stored list, or the empty list when nothing is stored. */
    function GetFastingDays(): (r: seq<FastingDay>)
      reads this
      requires Valid()
      ensures FASTING_DAYS_KEY !in items ==> r == []
      ensures FASTING_DAYS_KEY in items ==> items[FASTING_DAYS_KEY] == DayList(r)
    {
      if FASTING_DAYS_KEY in items then items[FASTING_DAYS_KEY].days else []
    }

    /** `getMissedFastingDays`: exactly the stored entries marked missed, never more than all of them. */
    function GetMissedFastingDays(): (r: seq<FastingDay>)
      reads this
      requires Valid()
      ensures |r| <= |GetFastingDays()|
      ensures forall i :: 0 <= i < |r| ==> r[i] in GetFastingDays() && r[i].status == Missed
      ensures forall d :: d in GetFastingDays() && d.status == Missed ==> d in r
    {
      MissedOnly(GetFastingDays())
    }

    /** `getQuranProgress`: the stored record, or none when nothing is stored. */
    function GetQuranProgress(): (r: Option<QuranProgress>)
      reads this
      requires Valid()
      ensures r.None? <==> QURAN_PROGRESS_KEY !in items
      ensures r.Some? ==> items[QURAN_PROGRESS_KEY] == ProgressRecord(r.value)
    {
      if QURAN_PROGRESS_KEY in items then Some(items[QURAN_PROGRESS_KEY].progress) else None
    }

    /** `saveFastingDay`: replaces the day's entries by `day`, appended last; no other key changes. */
    method SaveFastingDay(day: FastingDay)
      requires Valid()
      modifies this
      ensures Valid()
      ensures items == old(items)[FASTING_DAYS_KEY := DayList(Upsert(old(GetFastingDays()), day))]
      ensures GetFastingDays() == Upsert(old(GetFastingDays()), day)
      ensures GetQuranProgress() == old(GetQuranProgress())
    {
      var existing := GetFastingDays();
      var updated := WithoutDate(existing, day.date);
      items := items[FASTING_DAYS_KEY := DayList(updated + [day])];
    }

    /** `saveQuranProgress`: a later `getQuranProgress` returns `progress`; no other key changes. */
    method SaveQuranProgress(progress: QuranProgress)
      requires Valid()
      modifies this
      ensures Valid()
      ensures items == old(items)[QURAN_PROGRESS_KEY := ProgressRecord(progress)]
      ensures GetQuranProgress() == Some(progress)
      ensures GetFastingDays() == old(GetFastingDays())
    {
      items := items[QURAN_PROGRESS_KEY := ProgressRecord(progress)];
    }
  }
}
