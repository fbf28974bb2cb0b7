/** The two per-collection statistics that src/App.tsx and
    src/components/DataSummary.tsx both compute: the `reduce` total of
    `eventCount` and the size of the `Set` of locations. */
module EventStats {
  import opened SensorTypes

  /** `events.reduce((sum, e) => sum + e.eventCount, 0)`, folded left to right. */
  function Sum(events: seq<SensorEvent>): nat
  {
    if events == [] then 0 else Sum(events[..|events| - 1]) + events[|events| - 1].eventCount
  }

  /** One more event adds its count to the total. */
  lemma SumSnoc(events: seq<SensorEvent>, e: SensorEvent)
    ensures Sum(events + [e]) == Sum(events) + e.eventCount
  {
    assert (events + [e])[..|events|] == events;
  }

  /** No single event counts for more than the total. */
  lemma {:induction false} SumBoundsEach(events: seq<SensorEvent>, i: int)
    requires 0 <= i < |events|
    ensures events[i].eventCount <= Sum(events)
    decreases |events|
  {
    if i < |events| - 1 {
      SumBoundsEach(events[..|events| - 1], i);
    }
  }

  /** `new Set(events.map(e => e.location))`: never more locations than
      events, and none exactly when there are no events. */
  function Locations(events: seq<SensorEvent>): (locs: set<string>)
    ensures |locs| <= |events|
    ensures |locs| == 0 <==> events == []
    decreases |events|
  {
    if events == [] then {}
    else
      var last := events[|events| - 1];
      var rest := Locations(events[..|events| - 1]);
      assert last.location in rest + {last.location};
      rest + {last.location}
  }

  /** The set holds exactly the locations of the events. */
  lemma {:induction false} LocationsMembers(events: seq<SensorEvent>)
    ensures forall l :: l in Locations(events) <==> exists i :: 0 <= i < |events| && events[i].location == l
    decreases |events|
  {
    if events != [] {
      var prefix := events[..|events| - 1];
      LocationsMembers(prefix);
      assert forall i :: 0 <= i < |prefix| ==> prefix[i] == events[i];
    }
  }
}
