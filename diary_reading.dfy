/**
 * components/DiaryView.tsx: today's key, the lookup of today's record, the
 * text shown for it, the `M/D` date line and the weekday label.
 */
module DiaryReading {
  import opened Wrappers
  import opened Strings
  import opened Browser
  import opened DiaryWriting

  /** `getTodayKey`: the same `YYYY-MM-DD` text the entry form starts from. */
  function GetTodayKey(now: ClockReading): string {
    IntToString(now.fullYear) + "-" + TwoDigits(now.month + 1) + "-" + TwoDigits(now.date)
  }

  /** The view looks today up under exactly the key the entry form saves a
      record dated today under. */
  lemma TodayKeyMatchesEntryKey(now: ClockReading)
    ensures GetTodayKey(now) == GetTodayDate(now)
    ensures LookupKey(GetTodayKey(now)) == EntryKey(GetTodayDate(now))
  {
  }

  /** The key the view reads: `diary-<todayKey>`. */
  function LookupKey(todayKey: string): string {
    "diary-" + todayKey
  }

  /** What a successful `getItem` for today yields. */
  function Lookup(items: map<string, DiaryData>, now: ClockReading): Option<DiaryData> {
    var key := LookupKey(GetTodayKey(now));
    if key in items then Some(items[key]) else None
  }

  /** The text shown when no record was found. */
  const Placeholder: string := "今日のできごとはまだ記録されていません。"

  /** `displayEvent`: the record's content, or the placeholder. */
  function DisplayEvent(diaryData: Option<DiaryData>): string {
    if diaryData.Some? then diaryData.value.content else Placeholder
  }

  /** A record saved by the entry form for today's date is what the view
      finds and shows. */
  lemma SavedEntryIsDisplayed(items: map<string, DiaryData>, entry: DiaryData, now: ClockReading)
    requires entry.date == GetTodayDate(now)
    ensures Lookup(Saved(items, entry), now) == Some(entry)
    ensures DisplayEvent(Lookup(Saved(items, entry), now)) == entry.content
  {
  }

  /** A record saved for another day is not what the view finds today. */
  lemma OtherDayIsNotDisplayed(items: map<string, DiaryData>, entry: DiaryData, now: ClockReading)
    requires entry.date != GetTodayDate(now)
    ensures Lookup(Saved(items, entry), now) == Lookup(items, now)
  {
    TodayKeyMatchesEntryKey(now);
    EntryKeyInjective(entry.date, GetTodayDate(now));
  }

  /** With no record for today the view shows the placeholder, and the
      placeholder is shown only then or for a record whose content is that
      very text. */
  lemma PlaceholderIffNothingToShow(items: map<string, DiaryData>, now: ClockReading)
    ensures LookupKey(GetTodayKey(now)) !in items ==> DisplayEvent(Lookup(items, now)) == Placeholder
    ensures DisplayEvent(Lookup(items, now)) == Placeholder <==>
      (Lookup(items, now).None? || Lookup(items, now).value.content == Placeholder)
  {
  }

  /** The `displayDate` line: month and day, not padded, joined by `/`. */
  function DisplayDate(now: ClockReading): string {
    IntToString(now.month + 1) + "/" + IntToString(now.date)
  }

  /** The date line reads back as month + 1 and day. */
  lemma DisplayDateRoundTrip(now: ClockReading)
    requires IsCalendarReading(now)
    ensures var s := DisplayDate(now);
      exists i :: 0 <= i < |s| && s[i] == '/' &&
        ParseNat(s[..i]) == Some(now.month + 1) && ParseNat(s[i + 1..]) == Some(now.date)
  {
    var m, d := IntToString(now.month + 1), IntToString(now.date);
    IntToStringRoundTrip(now.month + 1);
    IntToStringRoundTrip(now.date);
    var s := DisplayDate(now);
    assert s == m + "/" + d;
    assert s[..|m|] == m;
    assert s[|m| + 1..] == d;
    assert s[|m|] == '/';
  }

  /** The weekday labels, Sunday first, as `getDay` numbers the days. */
  const Days: seq<string> := ["Sun.", "Mon.", "Tue.", "Wed.", "Thu.", "Fri.", "Sat."]

  /** The weekday label of the local date the key was made from: `days[d]`
      where `d` is that date's `getDay()`. */
  function GetDayOfWeek(weekday: int): (name: string)
    requires 0 <= weekday < 7
    ensures name in Days
  {
    Days[weekday]
  }

  /** Different weekdays get different labels, so the label names the day. */
  lemma GetDayOfWeekInjective(a: int, b: int)
    requires 0 <= a < 7 && 0 <= b < 7 && a != b
    ensures GetDayOfWeek(a) != GetDayOfWeek(b)
  {
  }

  /** `getDayOfWeek(todayKey)` as written. `new Date("YYYY-MM-DD")` is
      midnight UTC of that date, while `getDay` reads it in local time: with
      the local offset `utcOffsetMinutes` (local minus UTC) negative, that
      instant still falls on the previous local day. Offsets lie strictly
      within one day. */
  function GetDayOfWeekAsWritten(now: ClockReading, utcOffsetMinutes: int): string
    requires IsCalendarReading(now) && 1000 <= now.fullYear <= 9999
    requires -1440 < utcOffsetMinutes < 1440
  {
    var localWeekday := if utcOffsetMinutes < 0 then (now.weekday + 6) % 7 else now.weekday;
    Days[localWeekday]
  }

  /** The label as written is today's only at or east of UTC. */
  lemma AsWrittenCorrectIffEastOfUtc(now: ClockReading, utcOffsetMinutes: int)
    requires IsCalendarReading(now) && 1000 <= now.fullYear <= 9999
    requires -1440 < utcOffsetMinutes < 1440
    ensures GetDayOfWeekAsWritten(now, utcOffsetMinutes) == GetDayOfWeek(now.weekday)
        <==> utcOffsetMinutes >= 0
  {
    if utcOffsetMinutes < 0 {
      GetDayOfWeekInjective((now.weekday + 6) % 7, now.weekday);
    }
  }

  /** On Wednesday 1 May 2024 in a zone at UTC-5 (Chicago in summer) the
      view as written labels the day "Tue.". */
  lemma AsWrittenShowsPreviousDay()
    ensures GetDayOfWeekAsWritten(ClockReading(2024, 4, 1, 3), -300) == "Tue."
    ensures GetDayOfWeek(3) == "Wed."
  {
  }

  /** The state of the DiaryView page. */
  class DiaryView {
    var diaryData: Option<DiaryData>
    var isLoading: bool

    /** The page starts with no record and the loading flag up. */
    constructor ()
      ensures diaryData == None && isLoading
    {
      diaryData := None;
      isLoading := true;
    }

    /** The effect keyed on `todayKey`: reads `diary-<todayKey>`; a record
        found replaces `diaryData`; a missing one, or a read or parse that
        throws, leaves it. The loading flag always comes down. */
    method LoadToday(storage: LocalStorage<DiaryData>, now: ClockReading, readThrows: bool)
      modifies this
      ensures !isLoading
      ensures diaryData == if !readThrows && Lookup(storage.items, now).Some?
                           then Lookup(storage.items, now) else old(diaryData)
    {
      var todayKey := GetTodayKey(now);
      if !readThrows {
        var savedData := storage.GetItem(LookupKey(todayKey));
        if savedData.Some? {
          diaryData := savedData;
        }
      }
      isLoading := false;
    }
  }
}
