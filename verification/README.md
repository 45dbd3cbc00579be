# temporal-tree in Dafny

A model of the core of temporal-tree, a Java library that turns a list of time-stamped
records into a JSON tree for display. Two algorithms are modelled.

- **`DateBinner`**:
  - `getNext` finds the next boundary of a calendar unit in a time zone. It steps forward until the unit's field or the zone's UTC offset changes.
  - The constructor lays out contiguous bins from the truncated start instant up to the bin that holds the end instant.
  - `placeRecords` drops records, sorted by time, into those bins in one forward pass with a cursor.
- **`TreeGenerator`**:
  - `generateIndexTree` paginates records by position into ranges whose width is a power of ten.
  - `generateTemporalTreeChildren` builds the adaptive tree. Each non-empty bin becomes a group. A bin holding at least its level's break limit is binned again at the next level of a `TemporalTreeConfiguration` chain. The default chain is days, then hours, then minutes.

Instants are integer epoch milliseconds. A zone maps each instant to the UTC offset in
force then, and local time is the instant plus its offset. A zone also carries its own
resolution of a local time back to an instant: in a gap, the local time shifted forward
by the gap's length; in an overlap, the earlier instant. `truncatedTo` rounds the local
time down and resolves it with the current offset preferred. In a gap that result can
lie after the instant being truncated. The time-of-day fields and
the epoch day are computed from local time. Java's `floorDiv` and `floorMod` agree with
Dafny's `/` and `%` for a positive divisor.

Modules, one per concern:

| file | module | models |
|---|---|---|
| `wrappers.dfy` | `Wrappers`, `Errors` | null returns and exceptions as `Option`, `Result` and `Failure` |
| `time.dfy` | `Time` | units, fields, zones, `truncatedTo` |
| `boundary.dfy` | `Boundary` | `getNext` and `getNextHour/Minute/Second/Millisecond` |
| `boundary_facts.dfy` | `BoundaryFacts` | boundary facts in zone `Z`, and the daylight-saving test fixtures |
| `bins.dfy` | `Bins` | `TemporalBin`, `addRecord`, tilings |
| `binner.dfy` | `Binner` | the `DateBinner` constructor, with the first bin start as written and corrected, and `placeRecords` |
| `placement.dfy` | `Placement` | what `placeRecords` achieves |
| `binner_facts.dfy` | `BinnerFacts` | layouts in zone `Z`, and the seven-day test fixture |
| `config.dfy` | `Config` | `TemporalTreeConfiguration` and the default chain |
| `nodes.dfy` | `Nodes` | the JSON tree as a `Group / Leaf / Null` datatype |
| `indextree.dfy` | `IndexTree` | `generateIndexTree`, as written and corrected |
| `temporaltree.dfy` | `TemporalTree` | `generateTemporalTreeChildren`, and a record lost in a daylight-saving gap |

Where the code and its documentation differ, the model follows the code:

- Month and year scans step by `plus(1, MONTHS)` and `plus(1, YEARS)`, not by days.
- A level that breaks but has no next level (`breakConfiguration` is `null`) does not fail. The recursive call passes `null`, and a `null` configuration selects the default chain again. The model's `Effective` does the same for `None`.
- In temporal mode a `null` leaf is not skipped. `addAll` keeps it as a JSON null slot, modelled as `Null`. Index mode skips null leaves.
- `getNextSecond` ignores the field it is given and always compares the second of the minute. The tests pass `SECOND_OF_DAY`.

## Model

| member | source | states |
|---|---|---|
| Time.TruncationLength | lib/src/main/java/org/temporaltree/DateBinner.java:38 | `truncatedTo` accepts exactly the units up to a day; each accepted length divides a day |
| Time.Floor | lib/src/main/java/org/temporaltree/DateBinner.java:196 | rounding down with the offset in force at `t` moves back at most one unit and lands on a whole unit of local time |
| Time.Resolve | lib/src/main/java/org/temporaltree/DateBinner.java:38 | `ofLocal` with a preferred offset: when that offset is valid for the local time, the result has that local time and that offset; otherwise it is the zone's own resolution |
| Time.Truncate | lib/src/main/java/org/temporaltree/DateBinner.java:38 | truncation fails exactly for units longer than a day; when the offset of `t` still holds at the rounded-down instant, the result is that instant, at most `t` and less than one unit before it; otherwise it is the zone's resolution of the rounded-down local time |
| Time.TruncationKeepsOffset | lib/src/main/java/org/temporaltree/DateBinner.java:196 | where the offset is a whole number of units and already held at the start of `t`'s UTC unit, truncation is the UTC rounding down |
| Time.EasternSpringDay | lib/src/main/java/org/temporaltree/DateBinner.java:107 | in US/Eastern on 10 March 2024, noon truncated to the day resolves to midnight at the standard offset (05:00 UTC), not an hour earlier as keeping noon's offset would give |
| Boundary.ScanCount | lib/src/main/java/org/temporaltree/DateBinner.java:111-114 | the scan loop stops at step `k` exactly when step `k` is the first whose field or offset differs from the captured ones; no count means the captured values still hold after every budgeted step |
| Boundary.Run | lib/src/main/java/org/temporaltree/DateBinner.java:109-115 | a run returns the instant at which the loop exits, or reports that the loop is still running after the budget |
| Boundary.IterateFixed | lib/src/main/java/org/temporaltree/DateBinner.java:183 | `j` fixed steps of `d` milliseconds land at `t + j*d` |
| Boundary.ScanPlan | lib/src/main/java/org/temporaltree/DateBinner.java:98-137 | a scan exists for exactly the seven units `getNext` branches on |
| Boundary.HourScanStops | lib/src/main/java/org/temporaltree/DateBinner.java:182-185 | the hour loop exits within four quarter-hour steps in any zone |
| Boundary.MinuteScanStops | lib/src/main/java/org/temporaltree/DateBinner.java:200-203 | the minute loop exits within one step in any zone |
| Boundary.SecondScanStops | lib/src/main/java/org/temporaltree/DateBinner.java:218-221 | the second loop exits within one step in any zone |
| Boundary.MilliScanStops | lib/src/main/java/org/temporaltree/DateBinner.java:236-240 | the millisecond loop exits within one step in any zone |
| Boundary.NextHour | lib/src/main/java/org/temporaltree/DateBinner.java:177-187 | the first quarter-hour step at which the hour or the offset changes; later than `t`, at most one hour later, a whole number of quarter hours away |
| Boundary.NextMinute | lib/src/main/java/org/temporaltree/DateBinner.java:195-205 | the first whole minute from the truncated start whose minute or offset differs from those of `t`; within one minute of the truncated start, and later than `t` unless the offset changed between the two |
| Boundary.NextSecond | lib/src/main/java/org/temporaltree/DateBinner.java:213-223 | as `NextMinute`, for the second of the minute |
| Boundary.NextMillisecond | lib/src/main/java/org/temporaltree/DateBinner.java:231-242 | the loop exits after exactly one millisecond |
| Boundary.GetNext | lib/src/main/java/org/temporaltree/DateBinner.java:96-139 | fails with the null return exactly for the units no branch handles, and, among the modelled fields, with the `get` exception exactly for a month or year scan on the epoch day; a result is the exit instant of that unit's scan; sub-day units always succeed; a day, month or year scan that runs out of fuel (the cap on its loop iterations) means the captured values held for every step taken |
| BoundaryFacts.WholeHour | lib/src/main/java/org/temporaltree/DateBinner.java:182-185 | from a whole local hour whose offset holds for the next hour, the hour boundary is exactly one hour later |
| BoundaryFacts.OffsetShiftEndsHour | lib/src/main/java/org/temporaltree/DateBinner.java:182-185 | an offset change one quarter hour after `t` ends the hour there, whether or not the hour of day changed |
| BoundaryFacts.NextMinuteExact | lib/src/main/java/org/temporaltree/DateBinner.java:195-205 | the minute boundary is the next whole local minute, or the truncated start when the offset there differs from the one at `t` |
| BoundaryFacts.NextSecondExact | lib/src/main/java/org/temporaltree/DateBinner.java:213-223 | as `NextMinuteExact`, for seconds |
| BoundaryFacts.ChathamDaylightEnd | lib/src/test/java/org/temporaltree/DateBinnerTest.java:55-58 | at 03:30 in Pacific/Chatham, when the offset drops by an hour at 03:45, the next hour boundary reads hour 2, one less than the start |
| BoundaryFacts.ChathamDaylightStart | lib/src/test/java/org/temporaltree/DateBinnerTest.java:60-63 | at 02:30, when the offset rises by an hour at 02:45, the next hour boundary reads hour 3 |
| BoundaryFacts.EasternDaylightStart | lib/src/test/java/org/temporaltree/DateBinnerTest.java:65-68 | at 01:45 US/Eastern, before the spring-forward shift, the next hour boundary reads hour 3, two more than the start |
| BoundaryFacts.EasternDaylightEnd | lib/src/test/java/org/temporaltree/DateBinnerTest.java:70-73 | at 01:45, before the fall-back shift, the next hour boundary reads hour 1 again |
| BoundaryFacts.MinuteShiftChatham | lib/src/test/java/org/temporaltree/DateBinnerTest.java:79-89 | in Pacific/Chatham, one minute before each shift, the next minute boundary moves the hour as the test expects and advances the minute by one |
| BoundaryFacts.MinuteShiftEastern | lib/src/test/java/org/temporaltree/DateBinnerTest.java:91-101 | the same for the two US/Eastern shifts |
| BoundaryFacts.SecondShiftChatham | lib/src/test/java/org/temporaltree/DateBinnerTest.java:107-119 | in Pacific/Chatham, one second before each shift, the next second boundary moves the hour as expected and advances the minute and the second by one |
| BoundaryFacts.SecondShiftEastern | lib/src/test/java/org/temporaltree/DateBinnerTest.java:121-133 | the same for the two US/Eastern shifts |
| BoundaryFacts.MilliShiftChatham | lib/src/test/java/org/temporaltree/DateBinnerTest.java:139-153 | in Pacific/Chatham, one millisecond before each shift, the next millisecond boundary moves the hour as expected and advances minute, second and millisecond by one |
| BoundaryFacts.MilliShiftEastern | lib/src/test/java/org/temporaltree/DateBinnerTest.java:155-169 | the same for the two US/Eastern shifts |
| BoundaryFacts.UtcNextDay | lib/src/main/java/org/temporaltree/DateBinner.java:106-115 | in zone `Z` the day boundary is the next UTC midnight, and the epoch day there is one more |
| BoundaryFacts.UtcNextMonth | lib/src/main/java/org/temporaltree/DateBinner.java:116-126 | in zone `Z` the month boundary is one month after the month's start; the month advances by one and December wraps to January |
| BoundaryFacts.UtcNextYear | lib/src/main/java/org/temporaltree/DateBinner.java:127-136 | in zone `Z` the year boundary is one year after the year's start |
| Bins.AddRecord | lib/src/main/java/org/temporaltree/TemporalBin.java:18-20 | appends exactly one record after the existing ones and leaves unit, value and interval unchanged |
| Bins.TilingDisjoint | lib/src/main/java/org/temporaltree/DateBinner.java:42-51 | in bins laid end to end, an instant lies in at most one bin |
| Binner.LayoutFrom | lib/src/main/java/org/temporaltree/DateBinner.java:42-51 | the bins are contiguous, non-empty and fresh; each bin's value is the field at its start and its end is `getNext` of its start; they run from the current start up to the bin holding the end instant; failures are those of `getNext` or a boundary that does not move forward |
| Binner.FirstStart | lib/src/main/java/org/temporaltree/DateBinner.java:38 | as written the first bin starts at the truncated start; the corrected start agrees with it whenever truncation does not pass the start instant, and never lies after the start instant |
| Binner.Layout | lib/src/main/java/org/temporaltree/DateBinner.java:32-52 | fails with `TruncationUnsupported` exactly when truncation fails; any other failure is `LayoutFrom`'s (`UnsupportedUnit`, `NotIntField`, `ScanExhausted` or `NoProgress`); on success the bins are contiguous, laid out by `getNext`, start at the first bin start of the rule, and the end instant lies in the last bin |
| Binner.Seek | lib/src/main/java/org/temporaltree/DateBinner.java:72-76 | the cursor moves forward only over bins that end at or before the instant, stops on the last bin at the latest, and otherwise on a bin ending after the instant |
| Binner.PlaceOne | lib/src/main/java/org/temporaltree/DateBinner.java:64-81 | one record step keeps every interval, moves the cursor only forward, and appends the record to the cursor's bin exactly when that bin holds its timestamp |
| Binner.PlaceAll | lib/src/main/java/org/temporaltree/DateBinner.java:61-82 | the record loop keeps every bin's interval and, when there are bins, leaves the cursor on one; with no records an empty bin list is accepted |
| Binner.PlaceRecords | lib/src/main/java/org/temporaltree/DateBinner.java:61-82 | the imperative loop with its cursor computes the same bins as the functional record loop |
| Placement.PlaceOneSource | lib/src/main/java/org/temporaltree/DateBinner.java:78-80 | after a record step, a bin holds only what it held before, plus the new record if the bin holds its timestamp |
| Placement.PlacedInsideAt | lib/src/main/java/org/temporaltree/DateBinner.java:78-80 | for any input order, a record found in a bin is one of the input records, and the bin's interval holds its timestamp |
| Placement.SeekFinds | lib/src/main/java/org/temporaltree/DateBinner.java:70-76 | a cursor that has not passed the instant stops on the bin holding it, if there is one |
| Placement.PlaceOneExact | lib/src/main/java/org/temporaltree/DateBinner.java:64-81 | one record step keeps every bin equal to the records so far in its interval |
| Placement.PlaceAllExact | lib/src/main/java/org/temporaltree/DateBinner.java:61-82 | the loop invariant over sorted records: each bin holds exactly the records so far in its interval, and the cursor never passes the last record's bin |
| Placement.PlacementExact | lib/src/main/java/org/temporaltree/DateBinner.java:61-82 | over sorted records and fresh contiguous bins, each bin ends with exactly the records of its interval, in input order |
| Placement.PlacementUnique | lib/src/main/java/org/temporaltree/DateBinner.java:61-82 | over sorted records, a record is in a bin if and only if the bin's interval holds its timestamp |
| Placement.PlacementDrops | lib/src/main/java/org/temporaltree/DateBinner.java:72-80 | for any input order, a record before the first bin or at or after the last bin's end is in no bin |
| Placement.GatheredIsRecords | lib/src/main/java/org/temporaltree/DateBinner.java:61-82 | sorted records inside the bins' range, read back bin by bin, are exactly the input |
| BinnerFacts.UtcSubDayProgress | lib/src/main/java/org/temporaltree/DateBinner.java:98-105 | in zone `Z` every sub-day boundary is later than its start |
| BinnerFacts.UtcLayoutSucceeds | lib/src/main/java/org/temporaltree/DateBinner.java:32-52 | in zone `Z` the constructor never fails for milliseconds, seconds, minutes, hours, or days on the epoch day |
| BinnerFacts.UtcStart | lib/src/main/java/org/temporaltree/DateBinner.java:38 | in zone `Z` truncation is the UTC rounding down, and both start rules give it |
| BinnerFacts.UtcDayLayout | lib/src/main/java/org/temporaltree/DateBinner.java:38-51 | day bins in zone `Z` from a midnight: one per day up to the end instant's day, each exactly one day long |
| BinnerFacts.SevenDayFixture | lib/src/test/java/org/temporaltree/DateBinnerTest.java:173-224 | seven UTC days from a midnight give eight day bins; 168 hourly records fill the first seven with 24 each, in order, and leave the eighth empty |
| Config.MinuteLevel | lib/src/main/java/org/temporaltree/TreeGenerator.java:34-44 | the minute level bins on the minute of the hour and never breaks further |
| Config.HourLevel | lib/src/main/java/org/temporaltree/TreeGenerator.java:46-56 | the hour level bins on the hour of day and allows one more level below |
| Config.DefaultChain | lib/src/main/java/org/temporaltree/TreeGenerator.java:28-70 | the default chain bins days on the epoch day and is three levels deep, as deep as a missing configuration |
| Config.Effective | lib/src/main/java/org/temporaltree/TreeGenerator.java:128-129 | the given configuration is used; a missing one selects the default chain |
| Nodes.LeafNodes | lib/src/main/java/org/temporaltree/TreeGenerator.java:155-156 | one node per record, whose leaf slots are the leaf generator's outputs in record order |
| IndexTree.Factor | lib/src/main/java/org/temporaltree/TreeGenerator.java:114-117 | the child width is a power of ten from 10 up, below the range's width, and the least such power with the width below eleven times it |
| IndexTree.FactorLoop | lib/src/main/java/org/temporaltree/TreeGenerator.java:114-117 | `Factor` is where the `while` loop stops: its quotient is at most 10, and the previous power's quotient was above 10 |
| IndexTree.FactorOfRound | lib/src/main/java/org/temporaltree/TreeGenerator.java:114-117 | a range of `10^k` positions gets the child width `10^(k-1)` |
| IndexTree.FanOut | lib/src/main/java/org/temporaltree/TreeGenerator.java:114-121 | a wide range's group has at most eleven children, under either loop bound |
| IndexTree.LeafRangeCovers | lib/src/main/java/org/temporaltree/TreeGenerator.java:100-105 | a small range's leaves are the non-null leaves of its positions, start to end inclusive, in order |
| IndexTree.EmptyRange | lib/src/main/java/org/temporaltree/TreeGenerator.java:93-106 | the range `(0, -1)` gives a group keyed `0-0` with no children |
| IndexTree.AsWrittenSkipsLast | lib/src/main/java/org/temporaltree/TreeGenerator.java:118-121 | with the loop as written, the tree over positions 0 to 200 of 201 records covers only positions 0 to 199 |
| IndexTree.AsWrittenLosesLastRecord | lib/src/main/java/org/temporaltree/TreeGenerator.java:118 | a concrete case: 201 records whose leaves are never null give a tree with 200 leaves |
| IndexTree.CorrectedCovers | lib/src/main/java/org/temporaltree/TreeGenerator.java:92-124 | with the corrected loop, over an aligned range the group's leaves are exactly the non-null leaves of the range, in order; the aligned ranges include every range the root call `(0, size - 1)` builds |
| IndexTree.UnalignedOverreach | lib/src/main/java/org/temporaltree/TreeGenerator.java:118-121 | over an unaligned range the children are cut at the list's end, not the range's: over 300 records the group over `0..150` holds the non-null leaves of positions 0 to 199, under either loop bound |
| IndexTree.IndexTreeKeepsAll | lib/src/main/java/org/temporaltree/TreeGenerator.java:92-124 | with the corrected loop, the tree over all records holds every non-null leaf, in record order |
| IndexTree.ThousandRecordsFixture | lib/src/test/java/org/temporaltree/TreeGeneratorTest.java:17-48 | 1000 records give a root keyed and titled `0-999` with ten children, the `i`-th keyed and titled `100i-(100i+99)` and holding 100 leaves |
| TemporalTree.BinnedRecords | lib/src/main/java/org/temporaltree/TreeGenerator.java:133-138 | binning sorted records from the first record's instant to the last one's loses none whenever the first bin starts no later than the first record, which the corrected start always does: the bins read in order give the records back, and each bin's records are sorted |
| TemporalTree.TemporalLeaves | lib/src/main/java/org/temporaltree/TreeGenerator.java:126-162 | with the corrected first bin start, the tree of sorted records holds one leaf slot per record, in input order, at any depth of breaking |
| TemporalTree.BinLeaves | lib/src/main/java/org/temporaltree/TreeGenerator.java:142-159 | the groups of the filled bins hold, in order, one slot per record of those bins |
| TemporalTree.HeightBound | lib/src/main/java/org/temporaltree/TreeGenerator.java:143-149 | the tree is no deeper than the configuration chain allows; the default chain allows three levels |
| TemporalTree.BinShape | lib/src/main/java/org/temporaltree/TreeGenerator.java:142-158 | exactly one group per non-empty bin, in bin order, keyed and titled at the bin's start; its children are the next level's tree when the bin reaches a break limit other than `-1`, and otherwise one leaf slot per record |
| TemporalTree.CorrectedHasBins | lib/src/main/java/org/temporaltree/TreeGenerator.java:133-139 | with the corrected first bin start, no level of the tree fails for want of a first bin |
| TemporalTree.ChathamGapNoBins | lib/src/main/java/org/temporaltree/DateBinner.java:38-42 | as written, a lone record at 03:50 on the Pacific/Chatham spring-forward day, binned by the hour, truncates to 04:00, after itself; no bin is laid out and reading the first bin fails |
| TemporalTree.ChathamGapLosesRecord | lib/src/main/java/org/temporaltree/DateBinner.java:38-42 | as written, with a second record at 04:05 the only bin starts at 04:00 and the tree holds the second record's slot alone |
| TemporalTree.UtcTreeSucceeds | lib/src/main/java/org/temporaltree/TreeGenerator.java:126-162 | in zone `Z`, with levels on sub-day units or days on the epoch day, sorted records always give a tree |

## Left out

- Time zones are an abstract offset function plus an abstract resolution of local times (`ofLocal`). The tz database is not modelled, and the resolution's gap and overlap rules are not derived from the offsets. The daylight-saving fixtures therefore take the offsets and resolutions of Pacific/Chatham and US/Eastern around each shift as hypotheses.
- Boundary.NextMinute and Boundary.NextSecond: the truncated start of the minute and second scans keeps the offset of `t` (`Floor`) instead of resolving through the zone. The two agree whenever offsets are whole minutes and do not change inside the UTC minute or second (`TruncationKeepsOffset`). They differ only for an offset change that is not on a whole minute or second.
- The truncation to days inside the month and year scans (`firstDayOfMonth`, `firstDayOfYear`) is part of the abstract `Calendar`.
- Time.Field: only eight `ChronoField` values are modelled. They are the fields of the default chain, of the tests, and of the day, month and year scans. Java accepts any `ChronoField` in a level, for example `DAY_OF_MONTH`, `AMPM_OF_DAY` or `MINUTE_OF_DAY`, and such a level has no model. `NotIntField` is exact only among the modelled fields. Java's `get` also throws for `NANO_OF_DAY`, `MICRO_OF_DAY`, `PROLEPTIC_MONTH` and `INSTANT_SECONDS`.
- Month and year arithmetic (`firstDayOfMonth`, `firstDayOfYear`, `plus(1, MONTHS/YEARS)`, the month and the year of an instant) is an abstract `Calendar`. Adding one day is an abstract `plusDay` of the zone, which is concrete in zone `Z`.
- Boundary.GetNext: the day, month and year loops may never end in Java, for example days binned on the hour of day in zone `Z`. Here they run on fuel, a cap on the number of loop iterations, and fail with `ScanExhausted` when it runs out. Sub-day loops need no fuel: they are proved to stop within one hour.
- Binner.Layout: a boundary that is not later than the current bin start fails with `NoProgress`. Java behaves in two ways here. A boundary equal to the current start makes the constructor loop forever. A boundary earlier than the current start adds a bin whose end is before its start and continues from that earlier instant, which may still end. The model does not follow either path.
- Java's `null` from `getNext`, the exception from `truncatedTo`, and the `bins.get(0)` of an empty bin list are failure values, not exceptions. The `NullPointerException` that follows a `null` boundary is the `UnsupportedUnit` failure. The `UnsupportedTemporalTypeException` that `get(EPOCH_DAY)` throws in the month and year scans is the `NotIntField` failure.
- `long` and `int` overflow is not modelled: instants and indices are unbounded integers.
- Record lists are immutable sequences, and bins are values returned by the functions rather than lists mutated in place.
- A `null` record, a `null` instant from the date accessor, and a `null` `breakLimit` (an `Integer`) are not modelled.
- Date formatters and the hour and minute label strings are parameters: a key or title is any function of the zone and the bin's start instant. The default chain's title functions keep their structure: start, dash, and the end one minute or one second before the next boundary.
- JSON nodes (`ObjectNode`, `ArrayNode`, `TreeUtils.createNodeWithChildren`) are the `Group / Leaf / Null` datatype. The `isLeaf` flag and the JSON layout are not modelled.
- The `DateAccessor`, `LeafGenerator`, `DateKeyGenerator` and `DateTitleGenerator` interfaces are function parameters.
- The temporal-tree test over one day of per-second records (86 400 records) is not restated as a concrete lemma. Its counts are not derived: one day group, 24 hour groups, 60 minute groups per hour and 60 leaves per minute. Its concrete keys are not derived either. The model proves only general facts for any records. `TemporalLeaves` proves every record keeps its slot in order. `BinShape` proves there is one group per non-empty bin, keyed at the bin's start. `HeightBound` proves the depth is at most three.
- The tests based on `ZonedDateTime.now` (next day, month, year) are covered by the zone `Z` lemmas for every instant, not at a clock reading.
- IndexTree.IndexTree: `IndexTreeOf`, `IndexTreeAsWritten` and `IndexTree` require `Callable`, the ranges on which Java does not throw. The `IndexOutOfBoundsException` of the other ranges is not modelled as a failure. Two examples: a small range reaching past the list, where `(0, 5)` over three records reads `get(3)`, and a non-empty range with a negative start.
- TemporalTree.TemporalLeaves and TemporalTree.BinnedRecords: keeping every record is proved for the corrected first bin start. For the start as written, it holds only when truncation does not pass the first record. On a spring-forward day it can pass it, and `ChathamGapLosesRecord` and `ChathamGapNoBins` show the loss.
- IndexTree.CorrectedCovers: exact coverage is proved only for aligned ranges. A range is aligned when it is small, ends at the list's end, or is `10^k` positions long. For other ranges the source's group also holds the leaves after the range's end, up to the end of its last child, because each child is cut at `records.size() - 1` and not at `endIdx`. `UnalignedOverreach` shows one such range. The root call `(0, size - 1)` builds only aligned ranges.
- IndexTree.IndexTreeKeepsAll and IndexTree.CorrectedCovers: coverage is proved for the corrected loop only. As written, the loop does not cover every position.

## Findings

| source | as written | input that shows it | evidently intended | confidence | as-written member | corrected member |
|---|---|---|---|---|---|---|
| lib/src/main/java/org/temporaltree/TreeGenerator.java:118 | the child loop runs while `i < Math.min(records.size(), endIdx)`, so a child that would start exactly at `endIdx` is never made | 201 records, range `0..200`: the factor is 100, the loop makes children `0-99` and `100-199` and stops at 200, and the record at index 200 has no leaf | run while `i <= Math.min(records.size() - 1, endIdx)`, so every index of the range is covered | not executed | IndexTree.AsWrittenLosesLastRecord | IndexTree.IndexTreeKeepsAll |
| lib/src/main/java/org/temporaltree/DateBinner.java:38 | the first bin starts at `startDate.truncatedTo(timeUnit)`, which in a daylight-saving gap resolves the missing local time forward, past the start instant | Pacific/Chatham, hour bins, first record at 03:50 local (14:05 UTC) on 2024-09-29, when 02:45 jumps to 03:45: 03:00 resolves to 04:00 (14:15 UTC). Records before 14:15 are in no bin. A lone record leaves no bin at all, and `bins.get(0)` throws | the first bin holds the start instant, for example by rounding down with the start instant's offset when truncation passes it | medium; not executed | TemporalTree.ChathamGapLosesRecord | TemporalTree.TemporalLeaves |
