# IoT sensor dashboard: aggregation and export, modelled in Dafny

The dashboard reads a flat list of sensor readings. Each reading has an id, a timestamp, the reporting location and an event count. From that list it builds:

- **Hourly report** (`processHourlyStats`). Readings are grouped by a display label: short month, two-digit day and the hour on the 12-hour clock. The groups live in a JavaScript `Map`, which iterates in insertion order. Each group yields its total, its average per reading and its number of distinct locations.
- **Daily report** (`processDailyStats`). Readings are grouped by a month/day/year label. Inside each day, a second `Map` accumulates the total per clock hour. A `reduce` picks the peak hour, which is rendered as `H:00 (N events)`. The daily average always divides by 24.
- **Overview** (`DataSummary`). The total event count, the number of distinct locations, and the earliest and latest reading time.
- **Export** (`exportData`). The records become either CSV text or JSON text, with a media type, an extension and the file name `sensor-data.<extension>`. CSV is the first record's keys joined by commas, then each record's values joined by commas, lines joined by newlines, with nothing quoted.

How the model is laid out:

- The grouping loops (`forEach` over the data with `has` / `set` / `get().push`) are methods with loop invariants:
  - `Grouping.GroupBy` serves both reports.
  - `Aggregation.AccumulateHours` is the per-day hour accumulator.
  - Each method is proved against reference functions:
    - `FirstSeen` gives the distinct keys in first-seen order.
    - `Bucket` gives the readings of one key, in order.
    - `Sum` gives the reduce total.
- The insertion-ordered `Map` is the value type `OrderedMaps.OrderedMap`: a key sequence plus a map. The loops reassign it.
- The per-row statistics, the peak `reduce`, the CSV text and the overview are pure, so they are functions.
- Lemmas state what the source promises:
  - conservation of totals, distinct labels in first-seen order, and bounds on the averages and location counts;
  - the peak being a maximum and the last of the tied hours;
  - the CSV line structure and its round trip;
  - the overview's range bounds.

Timestamps arrive already decoded into local calendar fields: year, month, day, hour 0–23 and epoch milliseconds. The 12-hour label is a bijection with the 24-hour hour, proved by `Labels.ClockRoundTrip` and `Labels.ClockRoundTripBack`. So a label is represented as its fields rather than its text.

On a tie for the busiest hour, the code's `a[1] > b[1] ? a : b` replaces the running best whenever a later hour equals it, so the **last** tied hour wins. `PeakHour.Peak`, `PeakHour.PeakLast`, `PeakHour.TieGoesToLater` and `PeakHour.PeakPosition` state this.

## Model

| member | source | states |
|---|---|---|
| Labels.ClockHour | src/App.tsx:34-39 | the `hour12` clock hour is between 1 and 12 |
| Labels.ClockRoundTrip | src/App.tsx:34-39 | the 24-hour hour is recovered from the 12-hour reading and its designation |
| Labels.ClockRoundTripBack | src/App.tsx:34-39 | every 12-hour reading with a designation renders exactly one 24-hour hour |
| Labels.HourlyKey | src/App.tsx:34-39 | the hourly label carries the event's month and day and a clock hour in 1..12 that maps back to its hour |
| Labels.HourlyKeySameHour | src/App.tsx:34-39 | two events share an hourly label iff they agree on month, day and hour; the year plays no part |
| Labels.DailyKeySameDay | src/App.tsx:56-60 | two events share a daily label iff they agree on year, month and day |
| OrderedMaps.OrderedMap.Empty | src/App.tsx:31 | `new Map()` is valid and has no keys |
| OrderedMaps.OrderedMap.Has | src/App.tsx:40 | `has(k)` is true iff `k` was inserted |
| OrderedMaps.OrderedMap.Get | src/App.tsx:41 | `get(k)` holds a value iff `k` was inserted, and that value is the stored one |
| OrderedMaps.OrderedMap.Set | src/App.tsx:40 | `set` appends a new key to the iteration order, keeps a known key in place, stores the value and keeps keys distinct |
| EventStats.SumSnoc | src/App.tsx:46 | the reduce total grows by exactly the count of an appended reading |
| EventStats.SumBoundsEach | src/App.tsx:46 | no reading's count exceeds the total |
| EventStats.Locations | src/App.tsx:48 | the location set is no larger than the readings and is empty iff there are none |
| EventStats.LocationsMembers | src/App.tsx:48 | the location set holds exactly the locations some reading has |
| Grouping.FirstSeenSnoc | src/App.tsx:40 | one more reading adds its key at the end iff the key is new |
| Grouping.BucketSnoc | src/App.tsx:41 | one more reading is pushed onto its own key's group and no other |
| Grouping.FirstSeenMembers | src/App.tsx:31-44 | the grouped keys are exactly the keys some reading has, each listed once |
| Grouping.BucketMembers | src/App.tsx:40-41 | a group holds exactly the readings with its key, and never more than the input |
| Grouping.BucketNonEmpty | src/App.tsx:40-41 | a key is listed iff its group is non-empty |
| Grouping.FirstSeenMember | src/App.tsx:40 | a single key is listed iff some reading has it |
| Grouping.FirstSeenCovers | src/App.tsx:31-44 | no readings iff no keys; every reading's key is listed; every listed key occurs; keys are pairwise distinct |
| Grouping.FirstIndex | src/App.tsx:33-42 | the position of the first reading with a given key: that reading has the key and no earlier one does |
| Grouping.FirstIndexSnoc | src/App.tsx:33-42 | appending a reading keeps a present key present and leaves its first position unchanged |
| Grouping.FirstSeenOrder | src/App.tsx:31-44 | groups appear in the order their first reading appears in the input |
| Grouping.KeyTotalsSnoc | src/App.tsx:40-46 | over a list of distinct keys, one more reading raises the summed group totals by its count if its key is listed, and leaves them unchanged otherwise |
| Grouping.NewKeyTotals | src/App.tsx:40-46 | adding a reading of a new key and listing that key also raises the summed totals by its count |
| Grouping.KeyTotalsConserve | src/App.tsx:33-46 | the group totals over all keys add up to the input total |
| Grouping.GroupStep | src/App.tsx:40-41 | one `has`/`set`/`get().push` step keeps the map equal to the first-seen keys and their groups |
| Grouping.GroupBy | src/App.tsx:31-42 | the grouping loop builds a valid map whose keys are the first-seen keys and whose values are the groups |
| PeakHour.Peak | src/App.tsx:72-74 | the reduce result is one of the entries and no entry's total exceeds it |
| PeakHour.PeakLast | src/App.tsx:72-74 | the reduce result sits at a position after which every total is strictly smaller |
| PeakHour.TieGoesToLater | src/App.tsx:72-74 | of two entries with equal totals, the second is the peak |
| PeakHour.PeakPosition | src/App.tsx:72-74 | with distinct keys, the entry carrying the peak's key is the peak, and every later entry is strictly smaller |
| NumberText.DigitChar | src/App.tsx:80 | a digit value renders as a digit character with that value |
| NumberText.DigitValue | src/App.tsx:80 | a character's digit value is below 10 |
| NumberText.NatToString | src/App.tsx:80 | the number renders as at least one digit, with no leading zero |
| NumberText.NatToStringValue | src/App.tsx:80 | the rendered digits read back as the number |
| NumberText.NatToStringInjective | src/App.tsx:80 | distinct numbers render as distinct text |
| Aggregation.BucketsNonEmpty | src/App.tsx:40-44 | every mapped key's group has at least one reading |
| Aggregation.HourlyRow | src/App.tsx:44-49 | an hourly row carries its label and the group total; average × group size == total; uniqueLocations is the size of the group's location set, between 1 and the group size |
| Aggregation.ProcessHourlyStats | src/App.tsx:30-50 | `processHourlyStats` yields exactly one row per first-seen label, built from that label's group |
| Aggregation.HourlyRowsTotal | src/App.tsx:44-46 | the rows' totals add up to the listed labels' group totals |
| Aggregation.HourlyConservation | src/App.tsx:33-46 | the hourly totals add up to the input total |
| Aggregation.HourlyReportLabels | src/App.tsx:44 | the hourly rows carry the first-seen labels, one row each, in order |
| Aggregation.HourlyLabels | src/App.tsx:31-44 | no readings iff no rows; labels pairwise distinct; every reading's label has a row; every row's label is some reading's |
| Aggregation.HourlyOrder | src/App.tsx:31-44 | an earlier row's first reading comes before a later row's first reading |
| Aggregation.HourlyRowStats | src/App.tsx:44-49 | each row's group is non-empty; total and average match the group; a single-reading group's average is its count; location bounds |
| Aggregation.HourlyIgnoresYear | src/App.tsx:34-39 | two readings that differ only in the year fall into the same hourly row |
| Aggregation.EntryBoundedByTotal | src/App.tsx:66-70 | no accumulated hour total exceeds the sum of all of them |
| Aggregation.HourTotalsPrefix | src/App.tsx:66-70 | the first n hour totals add up to the group totals of the first n hours |
| Aggregation.DayHourTotals | src/App.tsx:66-70 | within a day: distinct hours in 0..23, summing to the day total, each at most the day total, non-empty iff the day has readings |
| Aggregation.DailyRow | src/App.tsx:76-82 | a daily row carries its date and the day total; average × 24 == total whatever hours have data; uniqueLocations is the size of the day's location set, between 1 and the readings |
| Aggregation.DailyRowsSnoc | src/App.tsx:65 | mapping one more date appends exactly that date's row |
| Aggregation.HourSumSnoc | src/App.tsx:69 | one more reading adds its count to its own hour's total and to no other hour |
| Aggregation.AccumulateSoFar | src/App.tsx:69 | `get(hour) \|\| 0` is the sum so far of that hour's readings, 0 for an hour not met yet |
| Aggregation.AccumulateValues | src/App.tsx:69 | storing the new total for the reading's hour makes every stored total the sum of its hour over one more reading |
| Aggregation.AccumulateStep | src/App.tsx:67-70 | one `set(hour, (get(hour) \|\| 0) + count)` step keeps the map equal to the first-seen hours and their totals |
| Aggregation.AccumulateHours | src/App.tsx:66-70 | the accumulator loop builds a valid map of the day's first-seen hours, each with the sum of its readings |
| Aggregation.ComputeDailyRow | src/App.tsx:65-83 | the accumulate, reduce and total steps produce exactly the specified daily row |
| Aggregation.ProcessDailyStats | src/App.tsx:52-84 | `processDailyStats` yields exactly one row per first-seen date, built from that date's group |
| Aggregation.DailyRowsTotal | src/App.tsx:78 | the rows' totals add up to the listed dates' group totals |
| Aggregation.DailyConservation | src/App.tsx:55-79 | the daily totals add up to the input total; every row's average × 24 == its total |
| Aggregation.DailyPeak | src/App.tsx:72-80 | each row's peak text renders an accumulated hour with its total; no hour has more; every hour inserted after it has strictly less; the peak total is at most the day total |
| Aggregation.DailyReportDates | src/App.tsx:65 | the daily rows carry the first-seen dates, one row each, in order |
| Aggregation.DailyOrder | src/App.tsx:53-65 | an earlier row's first reading comes before a later row's first reading |
| Aggregation.DailyLabels | src/App.tsx:53-65 | no readings iff no rows; dates pairwise distinct; every reading's date has a row; every row's date is some reading's |
| Export.Split | src/utils/export.ts:9 | splitting always yields at least one piece |
| Export.SplitJoin | src/utils/export.ts:7-9 | splitting a separator-joined list of separator-free parts gives back the parts |
| Export.SplitJoinPieces | src/utils/export.ts:8 | a joined line splits into one piece per part plus one per separator inside the parts |
| Export.JoinAvoids | src/utils/export.ts:7-9 | joining parts that avoid a character, with a different separator, yields text that avoids it |
| Export.CsvContent | src/utils/export.ts:6-9 | CSV content is an error iff there are no records; otherwise it is the header, a newline and the record lines joined by newlines |
| Export.CsvLineStructure | src/utils/export.ts:8-9 | with no newline in any emitted key or value, the content splits into exactly the header and one line per record |
| Export.CsvRoundTrip | src/utils/export.ts:7-9 | with no comma or newline in keys or values and no empty record, splitting recovers the first record's keys and every record's values |
| Export.CsvCommaAddsColumns | src/utils/export.ts:8 | a value holding a comma makes its line split into more columns than its record has fields |
| Export.ExportData | src/utils/export.ts:1-22 | "csv" gives the CSV content as `text/csv` with extension `csv`, failing iff there are no records; any other format gives the JSON text as `application/json` with extension `json`; the download is named `sensor-data.` followed by the extension |
| Summary.MinEpoch | src/components/DataSummary.tsx:14 | the start time is at most every reading's time and is some reading's time |
| Summary.MaxEpoch | src/components/DataSummary.tsx:15 | the end time is at least every reading's time and is some reading's time |
| Summary.Summarize | src/components/DataSummary.tsx:11-16 | uniqueLocations <= readings and is 0 iff there are none; a range exists iff there are readings, with start <= every time <= end |
| Summary.SummaryLocations | src/components/DataSummary.tsx:12 | uniqueLocations counts exactly the distinct location labels |
| Summary.RangeAttained | src/components/DataSummary.tsx:13-16 | both ends of the range are times of actual readings |
| Summary.TotalsAgree | src/components/DataSummary.tsx:11 | the overview total is the input total and equals both the hourly and the daily report totals |
| Scenarios.HourExampleGroup | src/App.tsx:33-42 | the two example readings share one hourly label, 8 AM on March 1, and form its whole group |
| Scenarios.HourExampleStats | src/App.tsx:46-48 | the example readings add up to 8 events from the two locations A and B |
| Scenarios.HourlyExample | src/App.tsx:30-50 | two readings of one hour with 5 and 3 events give one row: total 8, average 4, two locations |
| Scenarios.DayExampleDates | src/App.tsx:53-63 | the example's three readings form a single day group |
| Scenarios.DayExampleHourKeys | src/App.tsx:66-70 | the example day's hours are accumulated in the order 1, 2 |
| Scenarios.DayExampleFirstHour | src/App.tsx:66-70 | hour 1 of the example accumulates 30 events |
| Scenarios.DayExampleSecondHour | src/App.tsx:66-70 | hour 2 of the example accumulates 5 events |
| Scenarios.DayExampleHours | src/App.tsx:66-70 | the example day's hour entries are (1, 30) then (2, 5) |
| Scenarios.DayExampleLocations | src/App.tsx:81 | the example's readings come from the two locations A and B |
| Scenarios.PeakTextExample | src/App.tsx:80 | hour 1 with 30 events renders as `1:00 (30 events)` |
| Scenarios.DailyExample | src/App.tsx:52-84 | readings at hours 1, 1, 2 with 10, 20, 5 events from two locations give one row: total 35, average 35/24, peak text `1:00 (30 events)`, two locations |
| Scenarios.CsvExample | src/utils/export.ts:6-9 | records `{a:1,b:2}` and `{a:3,b:4}` export as `a,b`, `1,2`, `3,4` on three lines |
| Scenarios.CsvEmptyFails | src/utils/export.ts:7 | exporting no records as CSV is an error |

## Left out

- `generateMockData` (src/App.tsx:8-28) is not modelled. It draws on `Math.random`, `crypto.randomUUID` and the clock, and only supplies demonstration data.
- Timestamp parsing and locale or time-zone formatting are not modelled. These are `new Date(...)`, `toLocaleString`, `toLocaleDateString` and `getHours`. A reading carries its decoded local fields and epoch time instead. Labels are their fields (month, day, clock hour, AM/PM; year, month, day), not the formatted text.
- Unparseable timestamps are not modelled. Every timestamp is taken as already decoded, so the invalid-date path does not arise.
- `JSON.stringify(data, null, 2)` is a library call. `Export.ExportData` takes it as a function parameter and does not model the JSON text itself.
- Records are modelled as key/value text pairs in `Object.keys` enumeration order. JavaScript's value-to-text conversion and its rules for property order are not modelled.
- The `Blob`, object URL, anchor element and click (src/utils/export.ts:18-26) are browser I/O and are not modelled.
- React state and memo hooks (`useState`, `useMemo`), all JSX, and src/components/DataTable.tsx are presentation only and are not modelled.
- Display formatting (`toFixed`, `toLocaleString`) and the overview's `Math.round(total / unique)` average are not modelled. They are floating-point display rounding.
- Counts are unbounded naturals and averages are exact reals. JavaScript's floating-point numbers, including their rounding of large sums and of the two divisions, are not modelled.
- Summary.Summarize: for no readings the code builds two invalid dates from `Math.min()` / `Math.max()` of nothing (±Infinity). The model reports no range (`None`) instead.
- The engine's limit on the number of spread arguments to `Math.min` / `Math.max` is not modelled; very large arrays would make the code throw.
- `Map` is modelled as a value that the loops reassign. The code mutates one local object that nothing else references, so no aliasing is lost.
