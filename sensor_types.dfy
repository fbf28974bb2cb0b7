/** The records of src/types.ts, with the timestamp already decoded into the
    local calendar fields the aggregation reads from it. */
module SensorTypes {

  /** A clock hour on the 24-hour clock, as `Date.getHours()` returns it. */
  type Hour = h: int | 0 <= h < 24

  /** A decoded local timestamp: calendar fields plus the epoch milliseconds
      that `getTime()` yields and that orders instants. */
  datatype Timestamp = Timestamp(year: int, month: int, day: int, hour: Hour, epoch: int)

  datatype SensorEvent = SensorEvent(id: string, timestamp: Timestamp, location: string, eventCount: nat)

  datatype Meridiem = AM | PM

  /** The hourly bucket label: short month, two-digit day and the hour on the
      12-hour clock with its AM/PM designation. */
  datatype HourLabel = HourLabel(month: int, day: int, clockHour: int, meridiem: Meridiem)

  /** The daily bucket label: month, two-digit day and numeric year. */
  datatype DateLabel = DateLabel(year: int, month: int, day: int)

  datatype HourlyStats = HourlyStats(
    hour: HourLabel,
    totalEvents: nat,
    avgEventsPerLocation: real,
    uniqueLocations: nat)

  datatype DailyStats = DailyStats(
    date: DateLabel,
    totalEvents: nat,
    avgEventsPerHour: real,
    peakHour: string,
    uniqueLocations: nat)

  datatype Option<T> = None | Some(value: T)
}
