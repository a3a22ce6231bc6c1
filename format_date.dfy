/**
 * How a history record's time is shown: "just now", minutes, hours or days
 * ago, or, from a week on, the calendar date and time.
 */
module FormatDate {
  import opened JsStrings

  /** The time units, in milliseconds. */
  const Minute: int := 60 * 1000
  const Hour: int := 60 * 60 * 1000
  const Day: int := 24 * 60 * 60 * 1000
  const Week: int := 7 * 24 * 60 * 60 * 1000

  /** Which way a time is shown. */
  datatype Ago = JustNow | MinutesAgo(minutes: nat) | HoursAgo(hours: nat) | DaysAgo(days: nat) | Calendar

  /** The bucket `formatTimestamp` picks for `timestamp` at `now`. */
  function Bucket(timestamp: int, now: int): Ago
  {
    var diff := now - timestamp;
    if diff < Minute then JustNow
    else if diff < Hour then MinutesAgo(diff / Minute)
    else if diff < Day then HoursAgo(diff / Hour)
    else if diff < Week then DaysAgo(diff / Day)
    else Calendar
  }

  /** Each bucket covers one range of ages: anything under a minute,
    * including times in the future, is "just now"; the count shown is the
    * whole number of units elapsed, 1 to 59 minutes, 1 to 23 hours or 1 to
    * 6 days; a week or more goes to the calendar. */
  lemma BucketFacts(timestamp: int, now: int)
    ensures var diff := now - timestamp;
      match Bucket(timestamp, now)
      case JustNow => diff < Minute
      case MinutesAgo(m) => Minute <= diff < Hour && 1 <= m <= 59 && m * Minute <= diff < (m + 1) * Minute
      case HoursAgo(h) => Hour <= diff < Day && 1 <= h <= 23 && h * Hour <= diff < (h + 1) * Hour
      case DaysAgo(d) => Day <= diff < Week && 1 <= d <= 6 && d * Day <= diff < (d + 1) * Day
      case Calendar => diff >= Week
  {
  }

  /** An older time is never shown in a finer unit than a newer one. */
  lemma BucketMonotonic(t1: int, t2: int, now: int)
    requires t1 <= t2
    ensures Rank(Bucket(t1, now)) >= Rank(Bucket(t2, now))
  {
  }

  function Rank(b: Ago): nat
  {
    match b
    case JustNow => 0
    case MinutesAgo(_) => 1
    case HoursAgo(_) => 2
    case DaysAgo(_) => 3
    case Calendar => 4
  }

  /** The text of a bucket; the calendar text (month, day, hour and
    * minute in local time) is `calendarText`. */
  function Render(b: Ago, calendarText: Text): Text
  {
    match b
    case JustNow => "刚刚"
    case MinutesAgo(m) => NatToDecimal(m) + " 分钟前"
    case HoursAgo(h) => NatToDecimal(h) + " 小时前"
    case DaysAgo(d) => NatToDecimal(d) + " 天前"
    case Calendar => calendarText
  }

  /** `formatTimestamp`, with the clock read as `now` and the local
    * calendar rendering of the time passed in. */
  function FormatTimestamp(timestamp: int, now: int, calendarText: Text): Text
  {
    Render(Bucket(timestamp, now), calendarText)
  }

  /** The relative texts name their bucket and count unambiguously. */
  lemma RenderInjective(b1: Ago, b2: Ago, c: Text)
    requires b1 != Calendar && b2 != Calendar
    requires Render(b1, c) == Render(b2, c)
    ensures b1 == b2
  {
    var t := Render(b1, c);
    var k1 := SuffixLength(b1);
    var k2 := SuffixLength(b2);
    assert t[|t| - 2] == KindChar(b1);
    assert t[|t| - 2] == KindChar(b2);
    if !b1.JustNow? && !b2.JustNow? {
      assert k1 == k2;
      var n1 := Count(b1);
      var n2 := Count(b2);
      assert t[..|t| - k1] == NatToDecimal(n1);
      assert t[..|t| - k2] == NatToDecimal(n2);
      NatToDecimalInjective(n1, n2);
    }
  }

  function Count(b: Ago): nat
  {
    match b
    case MinutesAgo(m) => m
    case HoursAgo(h) => h
    case DaysAgo(d) => d
    case _ => 0
  }

  /** The length of the text after the count. */
  function SuffixLength(b: Ago): nat
  {
    if b.DaysAgo? then 3 else 4
  }

  /** The character before the final one, which tells the kinds apart. */
  function KindChar(b: Ago): char
  {
    match b
    case JustNow => '刚'
    case MinutesAgo(_) => '钟'
    case HoursAgo(_) => '时'
    case DaysAgo(_) => '天'
    case Calendar => ' '
  }
}
