/** The bucket keys of src/App.tsx: the hourly label built with `hour12: true`
    and the daily label, both read off the decoded timestamp. */
module Labels {
  import opened SensorTypes

  /** The hour as the 12-hour clock shows it: 0 is 12 AM, 12 is 12 PM. */
  function ClockHour(h: Hour): (c: int)
    ensures 1 <= c <= 12
  {
    if h % 12 == 0 then 12 else h % 12
  }

  function MeridiemOf(h: Hour): (m: Meridiem)
    ensures m == AM <==> h < 12
  {
    if h < 12 then AM else PM
  }

  /** Back from the 12-hour clock to the 24-hour one. */
  function Hour24(c: int, m: Meridiem): (h: Hour)
    requires 1 <= c <= 12
  {
    match m
    case AM => if c == 12 then 0 else c
    case PM => if c == 12 then 12 else c + 12
  }

  /** The 12-hour rendering loses nothing: the 24-hour clock hour is recovered. */
  lemma ClockRoundTrip(h: Hour)
    ensures Hour24(ClockHour(h), MeridiemOf(h)) == h
  {
  }

  /** Every 12-hour clock reading is the rendering of exactly one hour. */
  lemma ClockRoundTripBack(c: int, m: Meridiem)
    requires 1 <= c <= 12
    ensures ClockHour(Hour24(c, m)) == c && MeridiemOf(Hour24(c, m)) == m
  {
  }

  /** The hourly bucket key of an event: month, day and clock hour, no year. */
  function HourlyKey(e: SensorEvent): (l: HourLabel)
    ensures l.month == e.timestamp.month && l.day == e.timestamp.day
    ensures 1 <= l.clockHour <= 12
    ensures Hour24(l.clockHour, l.meridiem) == e.timestamp.hour
  {
    var t := e.timestamp;
    ClockRoundTrip(t.hour);
    HourLabel(t.month, t.day, ClockHour(t.hour), MeridiemOf(t.hour))
  }

  /** The daily bucket key of an event. */
  function DailyKey(e: SensorEvent): (l: DateLabel)
    ensures l.year == e.timestamp.year && l.month == e.timestamp.month && l.day == e.timestamp.day
  {
    DateLabel(e.timestamp.year, e.timestamp.month, e.timestamp.day)
  }

  /** The per-day accumulator key: the 24-hour clock hour. */
  function HourOf(e: SensorEvent): Hour
  {
    e.timestamp.hour
  }

  /** Two events share an hourly label exactly when they agree on month, day
      and hour; the year plays no part. */
  lemma HourlyKeySameHour(e1: SensorEvent, e2: SensorEvent)
    ensures HourlyKey(e1) == HourlyKey(e2) <==>
      (e1.timestamp.month == e2.timestamp.month && e1.timestamp.day == e2.timestamp.day
       && e1.timestamp.hour == e2.timestamp.hour)
  {
    if HourlyKey(e1) == HourlyKey(e2) {
      ClockRoundTrip(e1.timestamp.hour);
      ClockRoundTrip(e2.timestamp.hour);
    }
  }

  /** Two events share a daily label exactly when they fall on the same calendar day. */
  lemma DailyKeySameDay(e1: SensorEvent, e2: SensorEvent)
    ensures DailyKey(e1) == DailyKey(e2) <==>
      (e1.timestamp.year == e2.timestamp.year && e1.timestamp.month == e2.timestamp.month
       && e1.timestamp.day == e2.timestamp.day)
  {
  }
}
