/**
 * components/DiaryEntry.tsx: today's date as `YYYY-MM-DD`, the storage key
 * `diary-<date>`, and the form state across a save, the reset timer and a
 * failed write.
 */
module DiaryWriting {
  import opened Wrappers
  import opened Strings
  import opened Browser

  /** `DiaryData`: one diary record. */
  datatype DiaryData = DiaryData(title: string, content: string, date: string)

  /** `getTodayDate`: the year, then month and day zero-padded to two digits,
      joined by `-`. */
  function GetTodayDate(now: ClockReading): string {
    IntToString(now.fullYear) + "-" + TwoDigits(now.month + 1) + "-" + TwoDigits(now.date)
  }

  /** `String(n).padStart(2, '0')`. */
  function TwoDigits(n: int): string {
    PadStart(IntToString(n), 2, '0')
  }

  lemma TwoDigitsRoundTrip(n: int)
    requires 0 <= n < 100
    ensures |TwoDigits(n)| == 2 && IsDigits(TwoDigits(n)) && ParseNat(TwoDigits(n)) == Some(n)
  {
    assert IntToString(n) == NatToString(n);
    PadTwoRoundTrip(n);
  }

  /** The storage key of the record for `date`. */
  function EntryKey(date: string): string {
    "diary-" + date
  }

  /** Reads `<year>-<MM>-<DD>` back into year, month index and day. */
  function ParseDate(s: string): Option<(int, int, int)> {
    if |s| >= 7 && s[|s| - 6] == '-' && s[|s| - 3] == '-' then
      match (ParseInt(s[..|s| - 6]), ParseNat(s[|s| - 5..|s| - 3]), ParseNat(s[|s| - 2..]))
      case (Some(y), Some(m), Some(d)) => Some((y, m as int - 1, d as int))
      case _ => None
    else None
  }

  /** Where the three parts sit in a date text with two-character month and day. */
  lemma DateTextSplits(y: string, m: string, d: string)
    requires |m| == 2 && |d| == 2
    ensures var s := y + "-" + m + "-" + d;
      && |s| == |y| + 6 && s[|s| - 6] == '-' && s[|s| - 3] == '-'
      && s[..|s| - 6] == y && s[|s| - 5..|s| - 3] == m && s[|s| - 2..] == d
  {
    var s := y + "-" + m + "-" + d;
    assert s[..|s| - 6] == y;
    assert s[|s| - 5..|s| - 3] == m;
    assert s[|s| - 2..] == d;
  }

  /** Parsing a date text with two-character month and day parses its parts. */
  lemma ParseDateOfParts(y: string, m: string, d: string, year: int, month: nat, day: nat)
    requires |m| == 2 && |d| == 2
    requires ParseInt(y) == Some(year) && ParseNat(m) == Some(month) && ParseNat(d) == Some(day)
    ensures ParseDate(y + "-" + m + "-" + d) == Some((year, month - 1, day))
  {
    DateTextSplits(y, m, d);
  }

  /** The date text loses nothing: it reads back as the clock's year, month
      and day. */
  lemma GetTodayDateRoundTrip(now: ClockReading)
    requires IsCalendarReading(now)
    ensures ParseDate(GetTodayDate(now)) == Some((now.fullYear, now.month, now.date))
  {
    DateTextRoundTrip(now.fullYear, now.month + 1, now.date);
  }

  lemma DateTextRoundTrip(year: int, month: int, day: int)
    requires 0 <= month < 100 && 0 <= day < 100
    ensures ParseDate(IntToString(year) + "-" + TwoDigits(month) + "-" + TwoDigits(day)) == Some((year, month - 1, day))
  {
    TwoDigitsRoundTrip(month);
    TwoDigitsRoundTrip(day);
    IntToStringRoundTrip(year);
    ParseDateOfParts(IntToString(year), TwoDigits(month), TwoDigits(day), year, month, day);
  }

  /** For a four-digit year the date is exactly `YYYY-MM-DD`: ten characters,
      `-` at positions 4 and 7 and digits everywhere else. */
  lemma GetTodayDateShape(now: ClockReading)
    requires IsCalendarReading(now) && 1000 <= now.fullYear <= 9999
    ensures |GetTodayDate(now)| == 10
    ensures GetTodayDate(now)[4] == '-' && GetTodayDate(now)[7] == '-'
    ensures forall i :: 0 <= i < 10 && i != 4 && i != 7 ==> IsDigit(GetTodayDate(now)[i])
  {
    var y, m, d := IntToString(now.fullYear), TwoDigits(now.month + 1), TwoDigits(now.date);
    assert GetTodayDate(now) == y + "-" + m + "-" + d;
    TwoDigitsRoundTrip(now.month + 1);
    TwoDigitsRoundTrip(now.date);
    FourDigitYear(now.fullYear);
    DateTextLayout(y, m, d);
  }

  lemma FourDigitYear(year: int)
    requires 1000 <= year <= 9999
    ensures |IntToString(year)| == 4 && IsDigits(IntToString(year))
  {
    assert IntToString(year) == NatToString(year);
  }

  /** The layout of a date text whose parts are 4, 2 and 2 digits. */
  lemma DateTextLayout(y: string, m: string, d: string)
    requires |y| == 4 && |m| == 2 && |d| == 2 && IsDigits(y) && IsDigits(m) && IsDigits(d)
    ensures var s := y + "-" + m + "-" + d;
      && |s| == 10 && s[4] == '-' && s[7] == '-'
      && forall i :: 0 <= i < 10 && i != 4 && i != 7 ==> IsDigit(s[i])
  {
    var s := y + "-" + m + "-" + d;
    forall i | 0 <= i < 10 && i != 4 && i != 7
      ensures IsDigit(s[i])
    {
      if i < 4 {
        assert s[i] == y[i];
      } else if i < 7 {
        assert s[i] == m[i - 5];
      } else {
        assert s[i] == d[i - 8];
      }
    }
  }

  /** The month part is month + 1 and the day part the day, each as exactly
      two digits. */
  lemma GetTodayDateParts(now: ClockReading)
    requires IsCalendarReading(now)
    ensures var s := GetTodayDate(now);
      && ParseNat(s[|s| - 5..|s| - 3]) == Some(now.month + 1) && IsDigits(s[|s| - 5..|s| - 3])
      && ParseNat(s[|s| - 2..]) == Some(now.date) && IsDigits(s[|s| - 2..])
  {
    var y, m, d := IntToString(now.fullYear), TwoDigits(now.month + 1), TwoDigits(now.date);
    assert GetTodayDate(now) == y + "-" + m + "-" + d;
    TwoDigitsRoundTrip(now.month + 1);
    TwoDigitsRoundTrip(now.date);
    DateTextSplits(y, m, d);
  }

  /** Different dates have different keys. */
  lemma EntryKeyInjective(a: string, b: string)
    requires a != b
    ensures EntryKey(a) != EntryKey(b)
  {
    assert a == EntryKey(a)[6..];
    assert b == EntryKey(b)[6..];
  }

  /** Records of different days are stored under different keys. */
  lemma DistinctDaysDistinctKeys(a: ClockReading, b: ClockReading)
    requires IsCalendarReading(a) && IsCalendarReading(b)
    requires (a.fullYear, a.month, a.date) != (b.fullYear, b.month, b.date)
    ensures EntryKey(GetTodayDate(a)) != EntryKey(GetTodayDate(b))
  {
    GetTodayDateRoundTrip(a);
    GetTodayDateRoundTrip(b);
    EntryKeyInjective(GetTodayDate(a), GetTodayDate(b));
  }

  /** The store after `entry` is written: one key set, every other key kept. */
  function Saved(items: map<string, DiaryData>, entry: DiaryData): map<string, DiaryData> {
    items[EntryKey(entry.date) := entry]
  }

  /** A save makes the record findable under its date's key and touches no
      other key. */
  lemma SavedContents(items: map<string, DiaryData>, entry: DiaryData)
    ensures EntryKey(entry.date) in Saved(items, entry) && Saved(items, entry)[EntryKey(entry.date)] == entry
    ensures forall k :: k != EntryKey(entry.date) ==>
      (k in Saved(items, entry) <==> k in items) && (k in items ==> Saved(items, entry)[k] == items[k])
    ensures |Saved(items, entry)| == if EntryKey(entry.date) in items then |items| else |items| + 1
  {
  }

  /** Saving twice for one date leaves only the second record. */
  lemma SaveTwiceOverwrites(items: map<string, DiaryData>, first: DiaryData, second: DiaryData)
    requires first.date == second.date
    ensures Saved(Saved(items, first), second) == Saved(items, second)
  {
  }

  /** The state of the DiaryEntry form. */
  class DiaryEntry {
    var date: string
    var title: string
    var content: string
    var isSaved: bool

    /** The form opens on today's date with empty fields. */
    constructor (now: ClockReading)
      ensures date == GetTodayDate(now) && title == "" && content == "" && !isSaved
    {
      date := GetTodayDate(now);
      title := "";
      content := "";
      isSaved := false;
    }

    /** The `onChange` handler of the date input. */
    method SetDate(value: string)
      modifies this
      ensures date == value && title == old(title) && content == old(content) && isSaved == old(isSaved)
    {
      date := value;
    }

    /** The `onChange` handler of the title input. */
    method SetTitle(value: string)
      modifies this
      ensures title == value && date == old(date) && content == old(content) && isSaved == old(isSaved)
    {
      title := value;
    }

    /** The `onChange` handler of the content area. */
    method SetContent(value: string)
      modifies this
      ensures content == value && date == old(date) && title == old(title) && isSaved == old(isSaved)
    {
      content := value;
    }

    /** `handleSave`: writes `{title, content, date}` under `diary-<date>`. On
        success the form shows "saved" and the reset timer is scheduled; when
        the write throws, store and form stay as they were. */
    method HandleSave(storage: LocalStorage<DiaryData>, writeThrows: bool) returns (timerScheduled: bool)
      modifies this, storage
      ensures storage.items == if writeThrows then old(storage.items)
                               else Saved(old(storage.items), DiaryData(old(title), old(content), old(date)))
      ensures timerScheduled == !writeThrows
      ensures isSaved == if writeThrows then old(isSaved) else true
      ensures date == old(date) && title == old(title) && content == old(content)
    {
      var newEntry := DiaryData(title, content, date);
      var ok := storage.SetItem(EntryKey(newEntry.date), newEntry, writeThrows);
      if ok {
        isSaved := true;
        timerScheduled := true;
      } else {
        timerScheduled := false;
      }
    }

    /** The callback the timer runs two seconds after a save: clear the flag
        and the text fields, keep the date. */
    method TimerFired()
      modifies this
      ensures !isSaved && title == "" && content == "" && date == old(date)
    {
      isSaved := false;
      title := "";
      content := "";
    }
  }
}
