// src/utils/dates.js: date parsing, day comparisons and date-keyed grouping.
//
// Instants are epoch milliseconds. The host's `Date` is a `Clock`: `parse`
// is `new Date(text)` (None for an invalid date), `iso` is
// `toISOString()`, `localIso` is the app's `toLocalISOString`, and the time
// zone is a fixed offset, so the local calendar day of an instant is
// `(ms + offsetMs) / DayMs` and the UTC day is `ms / DayMs`. A day number
// stands for its `YYYY-MM-DD` text, which it determines one to one.
module Dates {
  import opened Wrappers
  import Groups

  const DayMs := 86400000
  const MinuteMs := 60000
  /** The largest magnitude a valid `Date` may hold. */
  const MaxTime := 8640000000000000

  datatype Clock = Clock(
    parse: string -> Option<int>,
    iso: int -> string,
    localIso: int -> string,
    offsetMs: int)

  /** Local calendar day number of an instant. */
  function LocalDay(c: Clock, ms: int): int
  {
    (ms + c.offsetMs) / DayMs
  }

  /** UTC calendar day number of an instant. */
  function UtcDay(ms: int): int
  {
    ms / DayMs
  }

  /** `startOfDay(date)`: local midnight of the instant's day. */
  function StartOfDay(c: Clock, ms: int): (r: int)
    ensures LocalDay(c, r) == LocalDay(c, ms)
    ensures r <= ms < r + DayMs
  {
    LocalDay(c, ms) * DayMs - c.offsetMs
  }

  /** Minutes since local midnight (`getHours() * 60 + getMinutes()`). */
  function MinuteOfDay(c: Clock, ms: int): (r: int)
    ensures 0 <= r < 1440
  {
    ((ms + c.offsetMs) % DayMs) / MinuteMs
  }

  /** Local midnight plus `minutes` lies on that day, `minutes` into it. */
  lemma DayPlusMinutes(c: Clock, ms: int, minutes: int)
    requires 0 <= minutes < 1440
    ensures LocalDay(c, StartOfDay(c, ms) + minutes * MinuteMs) == LocalDay(c, ms)
    ensures MinuteOfDay(c, StartOfDay(c, ms) + minutes * MinuteMs) == minutes
  {
    var d := LocalDay(c, ms);
    var t := StartOfDay(c, ms) + minutes * MinuteMs;
    assert t + c.offsetMs == d * DayMs + minutes * MinuteMs;
    assert 0 <= minutes * MinuteMs < DayMs;
  }

  /** `getDay()` of a local day number: 0 is Sunday; day 0 (1 January 1970) was a Thursday. */
  function Weekday(day: int): (r: int)
    ensures 0 <= r < 7
  {
    (day + 4) % 7
  }

  /**
   * The Monday starting the week of `day` (`(getDay() + 6) % 7` days back):
   * a Monday, at most six days earlier.
   */
  function WeekStart(day: int): (r: int)
    ensures Weekday(r) == 1
    ensures day - 6 <= r <= day
  {
    day - (Weekday(day) + 6) % 7
  }

  /** Every day of a week has the same week start, which is its own. */
  lemma WeekStartOfWeek(day: int, k: int)
    requires 0 <= k < 7
    ensures WeekStart(WeekStart(day) + k) == WeekStart(day)
  {
    var m := WeekStart(day);
    var q := (m + 4) / 7;
    assert m + 4 == 7 * q + 1;
    if k < 6 {
      assert m + k + 4 == 7 * q + (1 + k);
      assert Weekday(m + k) == 1 + k;
    } else {
      assert m + k + 4 == 7 * (q + 1);
      assert Weekday(m + k) == 0;
    }
  }

  /** `parseDate(value)`: a falsy value or an invalid date gives null. */
  function ParseDate(c: Clock, value: Option<string>): (r: Option<int>)
    ensures value == None || value == Some("") ==> r == None
    ensures value.Some? && value.value != "" ==> r == c.parse(value.value)
  {
    match value
    case None => None
    case Some(s) => if s == "" then None else c.parse(s)
  }

  /** `isSameDay(a, b)`: both dates present and on the same local calendar day. */
  predicate IsSameDay(c: Clock, a: Option<int>, b: Option<int>)
  {
    a.Some? && b.Some? && LocalDay(c, a.value) == LocalDay(c, b.value)
  }

  lemma IsSameDaySymmetric(c: Clock, a: Option<int>, b: Option<int>)
    ensures IsSameDay(c, a, b) == IsSameDay(c, b, a)
    ensures a == None || b == None ==> !IsSameDay(c, a, b)
  {
  }

  /**
   * `isWithinNextDays(value, days)`: the start-of-day difference between the
   * date and now is between 0 and `days` whole days.
   */
  function IsWithinNextDays(c: Clock, value: Option<string>, days: int, now: int): (r: bool)
    ensures r <==> ParseDate(c, value).Some?
                   && 0 <= LocalDay(c, ParseDate(c, value).value) - LocalDay(c, now) <= days
  {
    match ParseDate(c, value)
    case None => false
    case Some(date) =>
      var diff := StartOfDay(c, date) - StartOfDay(c, now);
      0 <= diff <= days * DayMs
  }

  /** `isBetweenDates(value, start, end)`. */
  predicate IsBetweenDates(c: Clock, value: Option<string>, start: int, end: int)
  {
    match ParseDate(c, value)
    case None => false
    case Some(date) => start <= date <= end
  }

  /** Both ends are inside the range; an unparsable value never is. */
  lemma IsBetweenDatesInclusive(c: Clock, value: Option<string>, start: int, end: int)
    requires start <= end
    ensures ParseDate(c, value) == Some(start) ==> IsBetweenDates(c, value, start, end)
    ensures ParseDate(c, value) == Some(end) ==> IsBetweenDates(c, value, start, end)
    ensures ParseDate(c, value) == None ==> !IsBetweenDates(c, value, start, end)
  {
  }

  /** A date key: `NoKey` is getDateKey's `''`, which groupByDate files under `'none'`. */
  datatype DateKey = NoKey | DayKey(day: int)

  /** `getDateKey(value)`: the UTC date `toISOString().slice(0, 10)` names. */
  function GetDateKey(c: Clock, value: Option<string>): (r: DateKey)
    ensures ParseDate(c, value).None? <==> r == NoKey
    ensures r.DayKey? ==> r.day == UtcDay(ParseDate(c, value).value)
  {
    match ParseDate(c, value)
    case None => NoKey
    case Some(ms) => DayKey(UtcDay(ms))
  }

  /** The local-date key the calendar looks groups up by. */
  function GetLocalDateKey(c: Clock, value: Option<string>): (r: DateKey)
    ensures ParseDate(c, value).None? <==> r == NoKey
    ensures r.DayKey? ==> r.day == LocalDay(c, ParseDate(c, value).value)
  {
    match ParseDate(c, value)
    case None => NoKey
    case Some(ms) => DayKey(LocalDay(c, ms))
  }

  /** An item's UTC date key, `getDateKey(item.dueAt)`. */
  function UtcKeyOf<T>(c: Clock, dueOf: T -> Option<string>): T -> DateKey
  {
    x => GetDateKey(c, dueOf(x))
  }

  /**
   * `groupByDate(items)`: every item lands in exactly one group, the group
   * of its UTC date key, in input order; undated items share `NoKey`; the
   * keys come in the order their first item appears.
   */
  method GroupByDate<T>(c: Clock, items: seq<T>, dueOf: T -> Option<string>)
    returns (keys: seq<DateKey>, groups: map<DateKey, seq<T>>)
    ensures forall k :: k in groups <==> k in keys
    ensures forall i, j :: 0 <= i < j < |keys| ==> keys[i] != keys[j]
    ensures forall k :: k in groups ==> groups[k] == Groups.KeyFilter(items, UtcKeyOf(c, dueOf), k)
    ensures forall k :: k !in groups ==> Groups.KeyFilter(items, UtcKeyOf(c, dueOf), k) == []
    ensures forall i :: 0 <= i < |items| ==> GetDateKey(c, dueOf(items[i])) in groups
    ensures forall i, j :: 0 <= i < j < |keys| ==>
              Groups.FirstIndex(items, UtcKeyOf(c, dueOf), keys[i]) < Groups.FirstIndex(items, UtcKeyOf(c, dueOf), keys[j])
  {
    var keyOf := UtcKeyOf(c, dueOf);
    keys, groups := Groups.GroupBy(items, keyOf);
    forall i | 0 <= i < |items| ensures keyOf(items[i]) in groups {
      Groups.KeyFilterEmptyIff(items, keyOf, keyOf(items[i]));
    }
  }

  /** An item's local-date key. */
  function LocalKeyOf<T>(c: Clock, dueOf: T -> Option<string>): T -> DateKey
  {
    x => GetLocalDateKey(c, dueOf(x))
  }

  /** The same grouping keyed by the local date, as the calendar reads it. */
  method GroupByLocalDate<T>(c: Clock, items: seq<T>, dueOf: T -> Option<string>)
    returns (keys: seq<DateKey>, groups: map<DateKey, seq<T>>)
    ensures forall k :: k in groups <==> k in keys
    ensures forall i, j :: 0 <= i < j < |keys| ==> keys[i] != keys[j]
    ensures forall k :: k in groups ==> groups[k] == Groups.KeyFilter(items, LocalKeyOf(c, dueOf), k)
    ensures forall k :: k !in groups ==> Groups.KeyFilter(items, LocalKeyOf(c, dueOf), k) == []
    ensures forall i :: 0 <= i < |items| ==> GetLocalDateKey(c, dueOf(items[i])) in groups
    ensures forall i, j :: 0 <= i < j < |keys| ==>
              Groups.FirstIndex(items, LocalKeyOf(c, dueOf), keys[i]) < Groups.FirstIndex(items, LocalKeyOf(c, dueOf), keys[j])
  {
    var keyOf := LocalKeyOf(c, dueOf);
    keys, groups := Groups.GroupBy(items, keyOf);
    forall i | 0 <= i < |items| ensures keyOf(items[i]) in groups {
      Groups.KeyFilterEmptyIff(items, keyOf, keyOf(items[i]));
    }
  }

  /**
   * The UTC key disagrees with the local day: three hours east of UTC, a
   * date due at 00:30 local time on day 20000 carries the key of day 19999.
   */
  lemma UtcKeyMissesLocalDay(c: Clock, value: string)
    requires value != "" && c.offsetMs == 3 * 60 * MinuteMs
    requires c.parse(value) == Some(20000 * DayMs + 30 * MinuteMs - c.offsetMs)
    ensures LocalDay(c, c.parse(value).value) == 20000
    ensures GetDateKey(c, Some(value)) == DayKey(19999)
    ensures GetDateKey(c, Some(value)) != GetLocalDateKey(c, Some(value))
  {
    var ms := c.parse(value).value;
    assert ms == 19999 * DayMs + (DayMs - 150 * MinuteMs);
    assert UtcDay(ms) == 19999;
  }

  /** With the local key, an item's group is its local due date exactly. */
  lemma LocalKeyMatchesLocalDay(c: Clock, value: Option<string>, day: int)
    ensures GetLocalDateKey(c, value) == DayKey(day)
        <==> ParseDate(c, value).Some? && LocalDay(c, ParseDate(c, value).value) == day
  {
  }
}
