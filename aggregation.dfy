/** `processHourlyStats` and `processDailyStats` of src/App.tsx.

    Each is given twice: a reference definition (`HourlyReport`,
    `DailyReport`) that says which rows come out in terms of the distinct
    keys of the input and the events behind each key, and the method that
    works the way the source does, with one grouping pass over an
    insertion-ordered map, proved to produce exactly the reference rows. */
module Aggregation {
  import opened SensorTypes
  import opened Labels
  import opened EventStats
  import opened OrderedMaps
  import opened Sequences
  import opened Grouping
  import opened PeakHour
  import opened NumberText

  /** Every listed key has at least one event behind it. */
  lemma BucketsNonEmpty<K>(data: seq<SensorEvent>, key: SensorEvent -> K)
    ensures forall k :: k in FirstSeen(data, key) ==> Bucket(data, key, k) != []
  {
    forall k | k in FirstSeen(data, key)
      ensures Bucket(data, key, k) != []
    {
      BucketNonEmpty(data, key, k);
    }
  }

  lemma AverageTimesCount(total: real, n: nat)
    requires n > 0
    ensures (total / n as real) * (n as real) == total
  {
  }

  // ---------------------------------------------------------------- hourly

  /** The row of one hourly group (src/App.tsx:44-49). `avgEventsPerLocation`
      divides by the number of events in the group, not by its locations. */
  function HourlyRow(hour: HourLabel, events: seq<SensorEvent>): (row: HourlyStats)
    requires events != []
    ensures row.hour == hour && row.totalEvents == Sum(events)
    ensures row.avgEventsPerLocation * (|events| as real) == row.totalEvents as real
    ensures row.uniqueLocations == |Locations(events)|
    ensures 1 <= row.uniqueLocations <= |events|
  {
    AverageTimesCount(Sum(events) as real, |events|);
    HourlyStats(hour, Sum(events), Sum(events) as real / |events| as real, |Locations(events)|)
  }

  /** One row per label of `labels`, each over the events carrying that label. */
  function HourlyRows(data: seq<SensorEvent>, labels: seq<HourLabel>): (rows: seq<HourlyStats>)
    requires forall l :: l in labels ==> Bucket(data, HourlyKey, l) != []
  {
    seq(|labels|, i requires 0 <= i < |labels| => HourlyRow(labels[i], Bucket(data, HourlyKey, labels[i])))
  }

  /** What `processHourlyStats` returns: a row for each distinct hourly label,
      in first-seen order. */
  function HourlyReport(data: seq<SensorEvent>): seq<HourlyStats>
  {
    BucketsNonEmpty(data, HourlyKey);
    HourlyRows(data, FirstSeen(data, HourlyKey))
  }

  /** `processHourlyStats`: group the events by label in one pass over a
      `Map`, then turn each entry into a row. */
  method ProcessHourlyStats(data: seq<SensorEvent>) returns (rows: seq<HourlyStats>)
    ensures rows == HourlyReport(data)
  {
    var hourlyMap := GroupBy(data, HourlyKey);
    BucketsNonEmpty(data, HourlyKey);
    var entries := hourlyMap.Entries();
    rows := seq(|entries|, i requires 0 <= i < |entries| => HourlyRow(entries[i].0, entries[i].1));
  }

  function HourlyTotal(rows: seq<HourlyStats>): nat
  {
    if rows == [] then 0 else HourlyTotal(rows[..|rows| - 1]) + rows[|rows| - 1].totalEvents
  }

  lemma {:induction false} HourlyRowsTotal(data: seq<SensorEvent>, labels: seq<HourLabel>)
    requires forall l :: l in labels ==> Bucket(data, HourlyKey, l) != []
    ensures HourlyTotal(HourlyRows(data, labels)) == KeyTotals(data, HourlyKey, labels)
    decreases |labels|
  {
    if labels != [] {
      var prefix := labels[..|labels| - 1];
      assert forall l :: l in prefix ==> l in labels;
      HourlyRowsTotal(data, prefix);
      assert HourlyRows(data, labels)[..|labels| - 1] == HourlyRows(data, prefix);
    }
  }

  /** Conservation: the hourly totals add up to the total of the input. */
  lemma HourlyConservation(data: seq<SensorEvent>)
    ensures HourlyTotal(HourlyReport(data)) == Sum(data)
  {
    BucketsNonEmpty(data, HourlyKey);
    HourlyRowsTotal(data, FirstSeen(data, HourlyKey));
    KeyTotalsConserve(data, HourlyKey);
  }

  /** The hourly rows carry the first-seen labels, one row each, in order. */
  lemma HourlyReportLabels(data: seq<SensorEvent>)
    ensures |HourlyReport(data)| == |FirstSeen(data, HourlyKey)|
    ensures forall i :: 0 <= i < |HourlyReport(data)| ==> HourlyReport(data)[i].hour == FirstSeen(data, HourlyKey)[i]
  {
  }

  /** The rows carry pairwise-distinct labels, one for each label some event
      has and none other, in the order each label was first met; no events,
      no rows. */
  lemma HourlyLabels(data: seq<SensorEvent>)
    ensures var rows := HourlyReport(data);
      && (data == [] <==> rows == [])
      && (forall i, j :: 0 <= i < j < |rows| ==> rows[i].hour != rows[j].hour)
      && (forall e :: e in data ==> exists i :: 0 <= i < |rows| && rows[i].hour == HourlyKey(e))
      && (forall i :: 0 <= i < |rows| ==> Occurs(data, HourlyKey, rows[i].hour))
  {
    var rows := HourlyReport(data);
    var labels := FirstSeen(data, HourlyKey);
    HourlyReportLabels(data);
    FirstSeenCovers(data, HourlyKey);
    forall e | e in data
      ensures exists i :: 0 <= i < |rows| && rows[i].hour == HourlyKey(e)
    {
      var i :| 0 <= i < |labels| && labels[i] == HourlyKey(e);
    }
  }

  /** Row order is first-occurrence order of the labels in the input. */
  lemma HourlyOrder(data: seq<SensorEvent>, i: int, j: int)
    requires 0 <= i < j < |HourlyReport(data)|
    ensures Occurs(data, HourlyKey, HourlyReport(data)[i].hour) && Occurs(data, HourlyKey, HourlyReport(data)[j].hour)
    ensures FirstIndex(data, HourlyKey, HourlyReport(data)[i].hour) < FirstIndex(data, HourlyKey, HourlyReport(data)[j].hour)
  {
    FirstSeenOrder(data, HourlyKey, i, j);
  }

  /** The statistics of each hourly row, over the events with its label:
      the average times the group size is the total, a one-event group
      averages that event's count, and the distinct locations number between
      one and the group size. */
  lemma HourlyRowStats(data: seq<SensorEvent>, i: int)
    requires 0 <= i < |HourlyReport(data)|
    ensures var row, group := HourlyReport(data)[i], Bucket(data, HourlyKey, HourlyReport(data)[i].hour);
      && group != []
      && row.totalEvents == Sum(group)
      && row.avgEventsPerLocation * (|group| as real) == row.totalEvents as real
      && (|group| == 1 ==> row.avgEventsPerLocation == group[0].eventCount as real)
      && 1 <= row.uniqueLocations <= |group|
  {
    BucketsNonEmpty(data, HourlyKey);
    var group := Bucket(data, HourlyKey, HourlyReport(data)[i].hour);
    if |group| == 1 {
      assert group[..0] == [];
    }
  }

  /** The year plays no part in the hourly key: events that agree on month,
      day and hour land in the same group, whatever their years. */
  lemma HourlyIgnoresYear(data: seq<SensorEvent>, a: int, b: int)
    requires 0 <= a < |data| && 0 <= b < |data|
    requires data[a].timestamp.month == data[b].timestamp.month
    requires data[a].timestamp.day == data[b].timestamp.day
    requires data[a].timestamp.hour == data[b].timestamp.hour
    ensures data[a] in Bucket(data, HourlyKey, HourlyKey(data[b]))
    ensures data[b] in Bucket(data, HourlyKey, HourlyKey(data[a]))
  {
    HourlyKeySameHour(data[a], data[b]);
    BucketMembers(data, HourlyKey, HourlyKey(data[a]));
    BucketMembers(data, HourlyKey, HourlyKey(data[b]));
  }

  // ----------------------------------------------------------------- daily

  /** The entries of a day's `hourlyEvents` map: each clock hour that has
      events, in first-seen order, with the sum of their counts. */
  function HourTotals(events: seq<SensorEvent>): seq<(Hour, nat)>
  {
    var hours := FirstSeen(events, HourOf);
    seq(|hours|, i requires 0 <= i < |hours| => (hours[i], Sum(Bucket(events, HourOf, hours[i]))))
  }

  function EntriesTotal(entries: seq<(Hour, nat)>): nat
  {
    if entries == [] then 0 else EntriesTotal(entries[..|entries| - 1]) + entries[|entries| - 1].1
  }

  /** Each entry is at most the sum of all of them. */
  lemma {:induction false} EntryBoundedByTotal(entries: seq<(Hour, nat)>, i: int)
    requires 0 <= i < |entries|
    ensures entries[i].1 <= EntriesTotal(entries)
    decreases |entries|
  {
    if i < |entries| - 1 {
      EntryBoundedByTotal(entries[..|entries| - 1], i);
    }
  }

  lemma {:induction false} HourTotalsPrefix(events: seq<SensorEvent>, n: nat)
    requires n <= |FirstSeen(events, HourOf)|
    ensures EntriesTotal(HourTotals(events)[..n]) == KeyTotals(events, HourOf, FirstSeen(events, HourOf)[..n])
    decreases n
  {
    if n > 0 {
      var hours := FirstSeen(events, HourOf);
      HourTotalsPrefix(events, n - 1);
      assert hours[..n][..n - 1] == hours[..n - 1];
      assert HourTotals(events)[..n][..n - 1] == HourTotals(events)[..n - 1];
    }
  }

  /** Within a day: the per-hour totals are keyed by distinct hours of the
      day, add up to the day's total, are each at most that total, and there
      is at least one of them when the day has events. */
  lemma DayHourTotals(events: seq<SensorEvent>)
    ensures var entries := HourTotals(events);
      && (forall i, j :: 0 <= i < j < |entries| ==> entries[i].0 != entries[j].0)
      && EntriesTotal(entries) == Sum(events)
      && (forall i :: 0 <= i < |entries| ==> 0 <= entries[i].0 < 24 && entries[i].1 <= Sum(events))
      && (events != [] <==> entries != [])
  {
    var entries := HourTotals(events);
    var hours := FirstSeen(events, HourOf);
    FirstSeenMembers(events, HourOf);
    assert entries[..|hours|] == entries && hours[..|hours|] == hours;
    HourTotalsPrefix(events, |hours|);
    KeyTotalsConserve(events, HourOf);
    forall i | 0 <= i < |entries|
      ensures entries[i].1 <= Sum(events)
    {
      EntryBoundedByTotal(entries, i);
    }
    if events != [] {
      assert Occurs(events, HourOf, HourOf(events[0]));
    }
  }

  /** The `peakHour` text: `${hour}:00 (${total} events)`. */
  function PeakHourText(peak: (Hour, nat)): string
  {
    NatToString(peak.0) + ":00 (" + NatToString(peak.1) + " events)"
  }

  /** The row of one daily group (src/App.tsx:65-83). `avgEventsPerHour`
      always divides by 24, however many hours have events. */
  function DailyRow(date: DateLabel, events: seq<SensorEvent>): (row: DailyStats)
    requires events != []
    ensures row.date == date && row.totalEvents == Sum(events)
    ensures row.avgEventsPerHour * 24.0 == row.totalEvents as real
    ensures row.uniqueLocations == |Locations(events)|
    ensures 1 <= row.uniqueLocations <= |events|
  {
    DayHourTotals(events);
    DailyStats(date, Sum(events), Sum(events) as real / 24.0, PeakHourText(Peak(HourTotals(events))), |Locations(events)|)
  }

  function DailyRows(data: seq<SensorEvent>, dates: seq<DateLabel>): (rows: seq<DailyStats>)
    requires forall d :: d in dates ==> Bucket(data, DailyKey, d) != []
  {
    seq(|dates|, i requires 0 <= i < |dates| => DailyRow(dates[i], Bucket(data, DailyKey, dates[i])))
  }

  /** The dates of a prefix of `dates` all have events whenever those of `dates` do. */
  ghost predicate DailyRowsPrefix(data: seq<SensorEvent>, dates: seq<DateLabel>, n: int) {
    && 0 <= n <= |dates|
    && forall d :: d in dates[..n] ==> Bucket(data, DailyKey, d) != []
  }

  lemma DailyRowsSnoc(data: seq<SensorEvent>, dates: seq<DateLabel>, n: int)
    requires forall d :: d in dates ==> Bucket(data, DailyKey, d) != []
    requires 0 <= n < |dates|
    ensures DailyRowsPrefix(data, dates, n) && DailyRowsPrefix(data, dates, n + 1)
    ensures DailyRows(data, dates[..n + 1]) == DailyRows(data, dates[..n]) + [DailyRow(dates[n], Bucket(data, DailyKey, dates[n]))]
  {
    assert forall d :: d in dates[..n] ==> d in dates;
    assert forall d :: d in dates[..n + 1] ==> d in dates;
  }

  /** What `processDailyStats` returns: a row for each distinct date, in
      first-seen order. */
  function DailyReport(data: seq<SensorEvent>): seq<DailyStats>
  {
    BucketsNonEmpty(data, DailyKey);
    DailyRows(data, FirstSeen(data, DailyKey))
  }

  /** `m` holds, for each hour met in `events`, the sum of that hour's counts. */
  ghost predicate HoldsHourTotals(m: OrderedMap<Hour, nat>, events: seq<SensorEvent>) {
    && m.Valid()
    && m.keys == FirstSeen(events, HourOf)
    && forall h :: h in m.values ==> m.values[h] == Sum(Bucket(events, HourOf, h))
  }

  /** Appending one event adds its count to its own hour's sum and to no other. */
  lemma HourSumSnoc(events: seq<SensorEvent>, e: SensorEvent, h: Hour)
    ensures Sum(Bucket(events + [e], HourOf, h)) ==
      Sum(Bucket(events, HourOf, h)) + (if HourOf(e) == h then e.eventCount else 0)
  {
    BucketSnoc(events, e, HourOf, h);
    SumSnoc(Bucket(events, HourOf, h), e);
  }

  /** The running total read from the map is the sum so far of the event's
      hour, or 0 for an hour not met yet. */
  lemma AccumulateSoFar(m: OrderedMap<Hour, nat>, events: seq<SensorEvent>, h: Hour)
    requires HoldsHourTotals(m, events)
    ensures (if h in m.values then m.values[h] else 0) == Sum(Bucket(events, HourOf, h))
  {
    if h !in m.values {
      BucketNonEmpty(events, HourOf, h);
    }
  }

  /** Storing the new total for the event's hour makes every stored total the
      sum of its hour over one more event. */
  lemma AccumulateValues(values: map<Hour, nat>, events: seq<SensorEvent>, e: SensorEvent)
    requires forall h :: h in values ==> values[h] == Sum(Bucket(events, HourOf, h))
    ensures var v := values[HourOf(e) := Sum(Bucket(events, HourOf, HourOf(e))) + e.eventCount];
      forall h :: h in v ==> v[h] == Sum(Bucket(events + [e], HourOf, h))
  {
    forall h | h in values[HourOf(e) := Sum(Bucket(events, HourOf, HourOf(e))) + e.eventCount]
      ensures values[HourOf(e) := Sum(Bucket(events, HourOf, HourOf(e))) + e.eventCount][h]
        == Sum(Bucket(events + [e], HourOf, h))
    {
      HourSumSnoc(events, e, h);
    }
  }

  /** One step of the accumulator loop keeps it in step with the events read so far. */
  lemma AccumulateStep(m: OrderedMap<Hour, nat>, events: seq<SensorEvent>, e: SensorEvent)
    requires HoldsHourTotals(m, events)
    ensures var h := HourOf(e);
      HoldsHourTotals(m.Set(h, (if h in m.values then m.values[h] else 0) + e.eventCount), events + [e])
  {
    var h := HourOf(e);
    AccumulateSoFar(m, events, h);
    FirstSeenSnoc(events, e, HourOf);
    AccumulateValues(m.values, events, e);
  }

  /** The per-day `hourlyEvents` loop: `set(hour, (get(hour) || 0) + count)`. */
  method AccumulateHours(events: seq<SensorEvent>) returns (hourlyEvents: OrderedMap<Hour, nat>)
    ensures hourlyEvents.Valid()
    ensures hourlyEvents.keys == FirstSeen(events, HourOf)
    ensures forall h :: h in hourlyEvents.values ==> hourlyEvents.values[h] == Sum(Bucket(events, HourOf, h))
  {
    hourlyEvents := OrderedMap.Empty();
    var i := 0;
    while i < |events|
      invariant 0 <= i <= |events|
      invariant HoldsHourTotals(hourlyEvents, events[..i])
    {
      var event := events[i];
      var hour := HourOf(event);
      var current := hourlyEvents.Get(hour);
      var sofar := if current.Some? then current.value else 0;
      AccumulateStep(hourlyEvents, events[..i], event);
      hourlyEvents := hourlyEvents.Set(hour, sofar + event.eventCount);
      TakeSnoc(events, i);
      i := i + 1;
    }
    TakeAll(events);
  }

  /** One daily row the way the source computes it: accumulate the hours,
      reduce their entries to the peak, total and count locations. */
  method ComputeDailyRow(date: DateLabel, events: seq<SensorEvent>) returns (row: DailyStats)
    requires events != []
    ensures row == DailyRow(date, events)
  {
    var hourlyEvents := AccumulateHours(events);
    DayHourTotals(events);
    var entries := hourlyEvents.Entries();
    assert entries == HourTotals(events);
    var peakHour := Peak(entries);
    var total := Sum(events);
    row := DailyStats(date, total, total as real / 24.0, PeakHourText(peakHour), |Locations(events)|);
  }

  /** `processDailyStats`: group the events by date in one pass over a
      `Map`, then compute each entry's row. */
  method ProcessDailyStats(data: seq<SensorEvent>) returns (rows: seq<DailyStats>)
    ensures rows == DailyReport(data)
  {
    var dailyMap := GroupBy(data, DailyKey);
    BucketsNonEmpty(data, DailyKey);
    var entries := dailyMap.Entries();
    ghost var dates := FirstSeen(data, DailyKey);
    rows := [];
    var i := 0;
    while i < |entries|
      invariant 0 <= i <= |entries|
      invariant DailyRowsPrefix(data, dates, i) && rows == DailyRows(data, dates[..i])
    {
      var (date, events) := entries[i];
      assert date == dates[i] && date in dates && events == Bucket(data, DailyKey, date);
      var row := ComputeDailyRow(date, events);
      DailyRowsSnoc(data, dates, i);
      rows := rows + [row];
      i := i + 1;
    }
    assert dates[..i] == dates;
  }

  function DailyTotal(rows: seq<DailyStats>): nat
  {
    if rows == [] then 0 else DailyTotal(rows[..|rows| - 1]) + rows[|rows| - 1].totalEvents
  }

  lemma {:induction false} DailyRowsTotal(data: seq<SensorEvent>, dates: seq<DateLabel>)
    requires forall d :: d in dates ==> Bucket(data, DailyKey, d) != []
    ensures DailyTotal(DailyRows(data, dates)) == KeyTotals(data, DailyKey, dates)
    decreases |dates|
  {
    if dates != [] {
      var prefix := dates[..|dates| - 1];
      assert forall d :: d in prefix ==> d in dates;
      DailyRowsTotal(data, prefix);
      assert DailyRows(data, dates)[..|dates| - 1] == DailyRows(data, prefix);
    }
  }

  /** Conservation: the daily totals add up to the total of the input, and
      every row's average is its total over 24. */
  lemma DailyConservation(data: seq<SensorEvent>)
    ensures DailyTotal(DailyReport(data)) == Sum(data)
    ensures forall i :: 0 <= i < |DailyReport(data)| ==>
      DailyReport(data)[i].avgEventsPerHour * 24.0 == DailyReport(data)[i].totalEvents as real
  {
    BucketsNonEmpty(data, DailyKey);
    DailyRowsTotal(data, FirstSeen(data, DailyKey));
    KeyTotalsConserve(data, DailyKey);
  }

  /** The peak of each daily row: its text renders an hour of that day with
      that hour's total; no hour of the day has more; every hour inserted
      into the accumulator after it has strictly less; and its total is at
      most the day's. */
  lemma DailyPeak(data: seq<SensorEvent>, i: int)
    requires 0 <= i < |DailyReport(data)|
    ensures var date := FirstSeen(data, DailyKey)[i];
      var group := Bucket(data, DailyKey, date);
      var entries := HourTotals(group);
      && entries != []
      && DailyReport(data)[i].peakHour == PeakHourText(Peak(entries))
      && (exists k :: 0 <= k < |entries| && entries[k] == Peak(entries)
            && (forall j :: 0 <= j < |entries| ==> entries[j].1 <= entries[k].1)
            && (forall j :: k < j < |entries| ==> entries[j].1 < entries[k].1))
      && Peak(entries).1 <= Sum(group)
  {
    BucketsNonEmpty(data, DailyKey);
    var date := FirstSeen(data, DailyKey)[i];
    var group := Bucket(data, DailyKey, date);
    assert group != [];
    DayHourTotals(group);
    var entries := HourTotals(group);
    var k := PeakLast(entries);
    assert DailyReport(data)[i] == DailyRow(date, group);
  }

  /** Row order is first-occurrence order of the dates in the input. */
  lemma DailyOrder(data: seq<SensorEvent>, i: int, j: int)
    requires 0 <= i < j < |DailyReport(data)|
    ensures Occurs(data, DailyKey, DailyReport(data)[i].date) && Occurs(data, DailyKey, DailyReport(data)[j].date)
    ensures FirstIndex(data, DailyKey, DailyReport(data)[i].date) < FirstIndex(data, DailyKey, DailyReport(data)[j].date)
  {
    FirstSeenOrder(data, DailyKey, i, j);
  }

  /** The daily rows carry the first-seen dates, one row each, in order. */
  lemma DailyReportDates(data: seq<SensorEvent>)
    ensures |DailyReport(data)| == |FirstSeen(data, DailyKey)|
    ensures forall i :: 0 <= i < |DailyReport(data)| ==> DailyReport(data)[i].date == FirstSeen(data, DailyKey)[i]
  {
  }

  /** The rows carry pairwise-distinct dates, one for each date some event
      has and none other, in first-seen order; no events, no rows. */
  lemma DailyLabels(data: seq<SensorEvent>)
    ensures var rows := DailyReport(data);
      && (data == [] <==> rows == [])
      && (forall i, j :: 0 <= i < j < |rows| ==> rows[i].date != rows[j].date)
      && (forall e :: e in data ==> exists i :: 0 <= i < |rows| && rows[i].date == DailyKey(e))
      && (forall i :: 0 <= i < |rows| ==> Occurs(data, DailyKey, rows[i].date))
  {
    var rows := DailyReport(data);
    var dates := FirstSeen(data, DailyKey);
    DailyReportDates(data);
    FirstSeenCovers(data, DailyKey);
    forall e | e in data
      ensures exists i :: 0 <= i < |rows| && rows[i].date == DailyKey(e)
    {
      var i :| 0 <= i < |dates| && dates[i] == DailyKey(e);
    }
  }
}
