/** The overview figures of src/components/DataSummary.tsx: total events,
    distinct locations and the range of event times. */
module Summary {
  import opened SensorTypes
  import opened EventStats
  import opened Aggregation

  /** The earliest and latest event time, in epoch milliseconds. */
  datatype DateRange = DateRange(start: int, end: int)

  /** `dateRange` is `None` for no events: `Math.min()` of nothing is
      `Infinity`, and a `Date` built from it is an invalid date. */
  datatype Overview = Overview(totalEvents: nat, uniqueLocations: nat, dateRange: Option<DateRange>)

  /** `Math.min(...data.map(e => time(e)))` over a non-empty collection. */
  function MinEpoch(data: seq<SensorEvent>): (t: int)
    requires data != []
    ensures forall i :: 0 <= i < |data| ==> t <= data[i].timestamp.epoch
    ensures exists i :: 0 <= i < |data| && data[i].timestamp.epoch == t
    decreases |data|
  {
    if |data| == 1 then data[0].timestamp.epoch
    else
      var rest := MinEpoch(data[1..]);
      assert forall i :: 1 <= i < |data| ==> data[1..][i - 1] == data[i];
      if data[0].timestamp.epoch <= rest then data[0].timestamp.epoch else rest
  }

  /** `Math.max(...data.map(e => time(e)))` over a non-empty collection. */
  function MaxEpoch(data: seq<SensorEvent>): (t: int)
    requires data != []
    ensures forall i :: 0 <= i < |data| ==> data[i].timestamp.epoch <= t
    ensures exists i :: 0 <= i < |data| && data[i].timestamp.epoch == t
    decreases |data|
  {
    if |data| == 1 then data[0].timestamp.epoch
    else
      var rest := MaxEpoch(data[1..]);
      assert forall i :: 1 <= i < |data| ==> data[1..][i - 1] == data[i];
      if data[0].timestamp.epoch >= rest then data[0].timestamp.epoch else rest
  }

  /** The overview of `data`. */
  function Summarize(data: seq<SensorEvent>): (o: Overview)
    ensures o.uniqueLocations <= |data|
    ensures o.uniqueLocations == 0 <==> data == []
    ensures o.dateRange.None? <==> data == []
    ensures o.dateRange.Some? ==> o.dateRange.value.start <= o.dateRange.value.end
    ensures o.dateRange.Some? ==> forall i :: 0 <= i < |data| ==>
      o.dateRange.value.start <= data[i].timestamp.epoch <= o.dateRange.value.end
  {
    var range := if data == [] then None else Some(DateRange(MinEpoch(data), MaxEpoch(data)));
    Overview(Sum(data), |Locations(data)|, range)
  }

  /** `uniqueLocations` counts exactly the distinct location labels. */
  lemma SummaryLocations(data: seq<SensorEvent>)
    ensures forall l :: l in Locations(data) <==> exists i :: 0 <= i < |data| && data[i].location == l
    ensures Summarize(data).uniqueLocations == |Locations(data)|
  {
    LocationsMembers(data);
  }

  /** Both ends of the range are the times of actual events. */
  lemma RangeAttained(data: seq<SensorEvent>)
    requires data != []
    ensures Summarize(data).dateRange.Some?
    ensures exists i :: 0 <= i < |data| && data[i].timestamp.epoch == Summarize(data).dateRange.value.start
    ensures exists j :: 0 <= j < |data| && data[j].timestamp.epoch == Summarize(data).dateRange.value.end
  {
    var lo, hi := MinEpoch(data), MaxEpoch(data);
  }

  /** The overview total is the sum of the counts, and it agrees with the
      hourly and the daily report. */
  lemma TotalsAgree(data: seq<SensorEvent>)
    ensures Summarize(data).totalEvents == Sum(data)
    ensures Summarize(data).totalEvents == HourlyTotal(HourlyReport(data))
    ensures Summarize(data).totalEvents == DailyTotal(DailyReport(data))
  {
    HourlyConservation(data);
    DailyConservation(data);
  }
}
