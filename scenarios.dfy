/** Worked examples: small inputs and the reports they produce. */
module Scenarios {
  import opened SensorTypes
  import opened Labels
  import opened EventStats
  import opened Grouping
  import opened PeakHour
  import opened Aggregation
  import opened Export
  import opened NumberText

  function At(hour: Hour, location: string, count: nat): SensorEvent
  {
    SensorEvent("e", Timestamp(2024, 3, 1, hour, hour * 3600000), location, count)
  }

  function HourExample(): seq<SensorEvent>
  {
    [At(8, "A", 5), At(8, "B", 3)]
  }

  /** The example's two readings share the label of 8 AM on March 1. */
  lemma HourExampleGroup()
    ensures FirstSeen(HourExample(), HourlyKey) == [HourLabel(3, 1, 8, AM)]
    ensures Bucket(HourExample(), HourlyKey, HourLabel(3, 1, 8, AM)) == HourExample()
  {
    var a, b := At(8, "A", 5), At(8, "B", 3);
    var e: seq<SensorEvent> := [];
    assert [a] == e + [a] && HourExample() == [a] + [b];
    FirstSeenSnoc(e, a, HourlyKey);
    FirstSeenSnoc([a], b, HourlyKey);
    BucketSnoc(e, a, HourlyKey, HourLabel(3, 1, 8, AM));
    BucketSnoc([a], b, HourlyKey, HourLabel(3, 1, 8, AM));
  }

  /** The example's readings add up to 8 events from two locations. */
  lemma HourExampleStats()
    ensures Sum(HourExample()) == 8
    ensures Locations(HourExample()) == {"A", "B"}
  {
    var a, b := At(8, "A", 5), At(8, "B", 3);
    var e: seq<SensorEvent> := [];
    assert [a] == e + [a] && HourExample() == [a] + [b];
    SumSnoc(e, a);
    SumSnoc([a], b);
    assert HourExample()[..1] == [a] && [a][..0] == e;
  }

  /** Two readings of the same hour from two locations, 5 and 3 events: one
      hourly row with total 8, average 4 and two locations. */
  lemma HourlyExample()
    ensures HourlyReport(HourExample()) == [HourlyStats(HourLabel(3, 1, 8, AM), 8, 4.0, 2)]
  {
    HourExampleGroup();
    HourExampleStats();
    assert HourlyReport(HourExample())[0] == HourlyRow(HourLabel(3, 1, 8, AM), HourExample());
  }

  function DayExample(): seq<SensorEvent>
  {
    [At(1, "A", 10), At(1, "B", 20), At(2, "A", 5)]
  }

  /** The example's three readings form a single day. */
  lemma DayExampleDates()
    ensures FirstSeen(DayExample(), DailyKey) == [DateLabel(2024, 3, 1)]
    ensures Bucket(DayExample(), DailyKey, DateLabel(2024, 3, 1)) == DayExample()
  {
    var a, b, c := At(1, "A", 10), At(1, "B", 20), At(2, "A", 5);
    var e: seq<SensorEvent> := [];
    assert [a] == e + [a] && [a, b] == [a] + [b] && DayExample() == [a, b] + [c];
    FirstSeenSnoc(e, a, DailyKey);
    FirstSeenSnoc([a], b, DailyKey);
    FirstSeenSnoc([a, b], c, DailyKey);
    BucketSnoc(e, a, DailyKey, DateLabel(2024, 3, 1));
    BucketSnoc([a], b, DailyKey, DateLabel(2024, 3, 1));
    BucketSnoc([a, b], c, DailyKey, DateLabel(2024, 3, 1));
  }

  /** Within the example's day, hour 1 comes first and hour 2 second. */
  lemma DayExampleHourKeys()
    ensures FirstSeen(DayExample(), HourOf) == [1, 2]
  {
    var a, b, c := At(1, "A", 10), At(1, "B", 20), At(2, "A", 5);
    var e: seq<SensorEvent> := [];
    assert [a] == e + [a] && [a, b] == [a] + [b] && DayExample() == [a, b] + [c];
    FirstSeenSnoc(e, a, HourOf);
    FirstSeenSnoc([a], b, HourOf);
    FirstSeenSnoc([a, b], c, HourOf);
  }

  /** Hour 1 holds the first two readings, 30 events between them. */
  lemma DayExampleFirstHour()
    ensures Sum(Bucket(DayExample(), HourOf, 1)) == 30
  {
    var a, b, c := At(1, "A", 10), At(1, "B", 20), At(2, "A", 5);
    var e: seq<SensorEvent> := [];
    assert [a] == e + [a] && [a, b] == [a] + [b] && DayExample() == [a, b] + [c];
    BucketSnoc(e, a, HourOf, 1);
    BucketSnoc([a], b, HourOf, 1);
    BucketSnoc([a, b], c, HourOf, 1);
    SumSnoc(e, a);
    SumSnoc([a], b);
  }

  /** Hour 2 holds the last reading, 5 events. */
  lemma DayExampleSecondHour()
    ensures Sum(Bucket(DayExample(), HourOf, 2)) == 5
  {
    var a, b, c := At(1, "A", 10), At(1, "B", 20), At(2, "A", 5);
    var e: seq<SensorEvent> := [];
    assert [a] == e + [a] && [a, b] == [a] + [b] && DayExample() == [a, b] + [c];
    BucketSnoc(e, a, HourOf, 2);
    BucketSnoc([a], b, HourOf, 2);
    BucketSnoc([a, b], c, HourOf, 2);
    SumSnoc(e, c);
  }

  /** Within the example's day, hour 1 has 30 events and hour 2 has 5. */
  lemma DayExampleHours()
    ensures HourTotals(DayExample()) == [(1, 30), (2, 5)]
  {
    DayExampleHourKeys();
    DayExampleFirstHour();
    DayExampleSecondHour();
  }

  /** The example's readings come from two locations. */
  lemma DayExampleLocations()
    ensures Locations(DayExample()) == {"A", "B"}
  {
    var a, b, c := At(1, "A", 10), At(1, "B", 20), At(2, "A", 5);
    var data := DayExample();
    assert data[..2] == [a, b] && data[..2][..1] == [a] && [a][..0] == [];
  }

  /** Hour 1 with 30 events renders as `1:00 (30 events)`. */
  lemma PeakTextExample()
    ensures PeakHourText((1, 30)) == "1:00 (30 events)"
  {
    assert NatToString(30) == NatToString(3) + [DigitChar(0)];
  }

  /** Three readings on one day at hours 1, 1 and 2 with 10, 20 and 5
      events from two locations: hour 1 is the peak with 30, the day's
      total is 35. */
  lemma DailyExample()
    ensures var rows := DailyReport(DayExample());
      && |rows| == 1
      && rows[0].totalEvents == 35
      && rows[0].avgEventsPerHour == 35.0 / 24.0
      && rows[0].peakHour == "1:00 (30 events)"
      && rows[0].uniqueLocations == 2
  {
    var date := DateLabel(2024, 3, 1);
    var data := DayExample();
    DayExampleDates();
    DayExampleHours();
    assert [(1, 30), (2, 5)][..1] == [(1, 30)];
    assert Peak(HourTotals(data)) == (1, 30);
    var a, b, c := At(1, "A", 10), At(1, "B", 20), At(2, "A", 5);
    var e: seq<SensorEvent> := [];
    assert [a] == e + [a] && [a, b] == [a] + [b] && data == [a, b] + [c];
    SumSnoc(e, a);
    SumSnoc([a], b);
    SumSnoc([a, b], c);
    assert DailyReport(data)[0] == DailyRow(date, data);
    DayExampleLocations();
    PeakTextExample();
  }

  /** Two records `{a: 1, b: 2}` and `{a: 3, b: 4}` export as `a,b`, `1,2`, `3,4`. */
  lemma CsvExample()
    ensures CsvContent([[("a", "1"), ("b", "2")], [("a", "3"), ("b", "4")]]) == Ok("a,b\n1,2\n3,4")
  {
    var data := [[("a", "1"), ("b", "2")], [("a", "3"), ("b", "4")]];
    assert Keys(data[0]) == ["a", "b"];
    assert Values(data[0]) == ["1", "2"];
    assert Values(data[1]) == ["3", "4"];
    assert ["a", "b"][1..] == ["b"] && ["1", "2"][1..] == ["2"] && ["3", "4"][1..] == ["4"];
    assert Join(["a", "b"], ',') == "a,b";
    assert Join(["1", "2"], ',') == "1,2";
    assert Join(["3", "4"], ',') == "3,4";
    var lines := CsvLines(data);
    assert lines == ["a,b", "1,2", "3,4"];
    assert lines[1..] == ["1,2", "3,4"] && lines[1..][1..] == ["3,4"];
    assert Join(["1,2", "3,4"], '\n') == "1,2\n3,4";
    assert Join(lines, '\n') == "a,b\n1,2\n3,4";
  }

  /** Exporting no records as CSV fails. */
  lemma CsvEmptyFails(stringify: seq<Record> -> string)
    ensures ExportData([], "csv", stringify) == Err(NoRecords)
  {
  }
}
