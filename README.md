# dt: differential frame-time profiler, measurement session

`dt.h` is a header-only C++ profiler. It measures what named code regions
("zones") inside a repeatedly executing loop cost. It switches the zones
off one at a time and compares the loop's frame times with a baseline pass
in which every zone runs. The host loop calls three things:
- `zone(name)` guards each region and answers whether it should run in
  this iteration;
- `start()` requests a measurement;
- `slice(time)` ends an iteration and hands over the elapsed time.

This project models the session in Dafny:
- **Zone registry** (`zones.dfy`, module `Zones`). It is an ordered list of
  named zones. Index 0 is the null zone: it has an empty name, is created
  by the first `zone()` call, and is the baseline. It also holds the first
  match lookup (`get_zone_index`) and registration.
- **State machine** (`lifecycle.dfy`, module `Lifecycle`). Pure step
  functions over a snapshot of the session fields. They are the
  specification of Ready -> Starting -> Measuring -> Ready. This module
  also holds the invariant of a session and a theorem about a whole
  measurement pass. `slice(time)` behaves as follows:
  - the first slice after `start()` resets the pass and its time is
    discarded;
  - then the warmup countdown runs;
  - then every slice appends one sample to the zone under test;
  - once the sample target is reached, the next zone is put under test;
  - after the last zone the pass is evaluated and the session is Ready
    again.
- **Session object** (`session.dfy`, class `Profiler.Session`). It holds
  the mutable fields of the process-wide state record, the stored results
  and the report string. The methods `Zone`, `Start`, `Slice`,
  `ResetState`, `RecordSlice`, `StartNextZoneMeasurement`, `Evaluate`,
  `ClearResults` and `FactoryReset` update these fields in place.
  - `Zone`, `Start`, `Slice`, `ResetState`, `RecordSlice` and
    `StartNextZoneMeasurement` are proved to move the state machine fields
    exactly as the matching step function does.
  - `Evaluate`, `ClearResults` and `FactoryReset` state their whole new
    state directly; they have no step function.
  - `Zone`, `Start`, `Slice`, `ClearResults` and `FactoryReset` keep the
    session invariant. The helpers that `Slice` calls are not proved to
    keep it on their own, because the invariant does not hold between
    their steps.
  - The invariant also ties the report text to the stored results: it is
    the rendering of the results, or empty when there are none.
- **Statistics** (`stats.dfy`, `results.dfy`). At evaluation, each zone's
  samples are copied and sorted. The median, mean and worst time are read
  off the sorted copy. The model also covers the Bessel-corrected variance,
  which is the part of the standard deviation before the square root.
- **Report layout** (`report.dfy`). The integer and string parts of the
  results table:
  - the width of the name column;
  - the `all:` / `w/o <name>:` row labels;
  - the width of a statistics column;
  - the digit count of an integer.

Frame times are exact `real` numbers. The counters are unbounded `int`s,
because `dt.h` does not validate the configured sample count or warmup
count. If the sample target is 0, one sample per zone is still recorded,
because the target test runs after the increment (`Lifecycle.PerZone`).
A whole pass after `start()` therefore takes
1 + max(warmup, 0) + zones × max(target, 1) slices
(`Lifecycle.MeasurementPass`). A negative target is different in the
session. Each zone that `zone()` appends reserves room for that many
samples, and the negative `int` converts to a huge `size_t`, so the
reservation throws `std::length_error` (dt.h:487, 492). The zone has
already been appended when it throws. `Profiler.Session.Zone` reports
this as `lengthError`. The state machine in `Lifecycle` covers a negative
target for a host that catches the exception and carries on.

Where the code and the documented design of the profiler disagree, the
model follows the code:
- **Warmup runs once per pass.** The design says it is re-armed before
  each zone. In the code, `start_next_zone_measurement` touches only the
  target index and the slice counter.
- **A zone first seen during a pass joins that same pass.** The design
  says it joins from the next pass. In the code it is appended after the
  zone under test, so that pass measures it as well
  (`Lifecycle.ZonePreservesInv`).
- **Header labels do not widen the columns.** The design says column
  widths include the header label. In the code, a statistics column
  starts at width 3 and grows only with its cells (`Report.GetTableRow`).
- **The sample count and warmup count are not validated.** The design
  says they are at least 1 and at least 0. The code accepts any integer
  (see `Lifecycle.PerZone` above).

## Model

| member | source | states |
|---|---|---|
| Zones.ZoneIndex | dt.h:93-108 | the result is -1 exactly when no zone has the name; otherwise it is the index of the first zone with that name |
| Zones.IsZoneKnown | dt.h:111-116 | true exactly when some zone carries the name |
| Zones.Register | dt.h:484-493 | the null zone is created when the list is empty, followed by the name unless it is the empty name; a known name leaves the list unchanged; an unknown one is appended with no samples; existing zones keep their places; afterwards the name is known, names stay distinct, and the name occurs at exactly one index |
| Zones.ZoneIndexStable | dt.h:93-108 | appending zones does not change the index of a name that is already registered |
| Zones.RegisterAllExtends | dt.h:490-493 | any sequence of registrations keeps every existing zone at its index |
| Zones.RegisteredIndexStable | dt.h:484-502 | whatever other zones one loop iteration registers, a name keeps the index its first `zone()` call gave it |
| Lifecycle.ClearedZones | dt.h:137-138 | same length; every zone keeps its name and has no samples |
| Lifecycle.SampleTargetReached | dt.h:119-124 | once a slice has been recorded, the target counts as reached exactly when the counter holds the full per-zone share, max(target, 1) |
| Lifecycle.AllZonesDone | dt.h:127-129 | done exactly when every zone has had its turn as the target; while not done, the target index names a registered zone |
| Lifecycle.ResetPass | dt.h:133-139 | target, counter and warmup counter reset to 0, 0 and the configured warmup; status unchanged; same zones with the same names and no samples; distinct names stay distinct |
| Lifecycle.Record | dt.h:197-200 | the time is appended to the zone under test; every other zone keeps its samples; the counter grows by one; no other field changes |
| Lifecycle.Advance | dt.h:203-206 | the target moves to the next zone and the counter is reset; no other field changes, so warmup is not re-armed |
| Lifecycle.Start | dt.h:505-508 | a Ready session becomes Starting with nothing else changed; in any other status nothing changes; so afterwards the session is never Ready |
| Lifecycle.ShouldRun | dt.h:495-501 | the answer is false exactly when the session is Measuring, the target is not the null zone, and the name's index is the target |
| Lifecycle.SliceStep | dt.h:511-531 | every slice keeps the number, names and order of the zones |
| Lifecycle.SliceOutsideMeasuring | dt.h:512-518 | a slice while Ready changes nothing; a slice while Starting discards the time, runs reset_state and switches to Measuring |
| Lifecycle.InitialStateValid | dt.h:43-50 | the initial session satisfies the invariant |
| Lifecycle.StartPreservesInv | dt.h:505-508 | start() keeps the invariant |
| Lifecycle.ZonePreservesInv | dt.h:484-493 | registration keeps the invariant in every status, including a zone first seen during a pass; the null zone stays at index 0 |
| Lifecycle.InvCanRecord | dt.h:197-198 | in a valid session with at least one zone, the zone under test exists whenever a slice records |
| Lifecycle.SlicePreservesInv | dt.h:511-531 | slice keeps the invariant: while Measuring the counter stays below the per-zone target, zones before the target hold a full set of samples, the target zone holds the counter's worth and later zones hold none; the target index never decreases during a pass |
| Lifecycle.EvaluationHasFullZones | dt.h:525-528 | the slice that evaluates ends Ready, and each zone then holds exactly the per-zone sample count |
| Lifecycle.ResultsNeverReady | dt.h:576-578 | on every reachable state, the are_results_ready test is false |
| Lifecycle.ToggleConsistent | dt.h:484-502 | a second zone(name) call in the same iteration changes nothing and gives the same answer as the first, whatever other zones are registered between the two calls |
| Lifecycle.Run | dt.h:511-531 | any sequence of slices keeps the invariant and the zone names |
| Lifecycle.RunAppend | dt.h:511-531 | running two sequences of slices one after the other is the same as running their concatenation |
| Lifecycle.WarmupPhase | dt.h:520-523 | warmup slices only count the warmup counter down; no sample is recorded and nothing else changes |
| Lifecycle.RecordZone | dt.h:197-206 | the rest of a zone's sub-pass appends exactly its slices to the zone under test, moves the target on and resets the counter; the pass becomes Ready after the last zone; warmup is not re-armed |
| Lifecycle.RecordZonesFrom | dt.h:524-529 | from the start of a zone's sub-pass, zone tz+c receives exactly chunk c and earlier zones are untouched; the pass ends Ready with the target past the last zone |
| Lifecycle.MeasurementPass | dt.h:511-531 | a whole pass after start() has one discarded slice, then the warmup slices once, then one chunk of the per-zone count per zone; afterwards the session is Ready, zone i holds exactly chunk i, and are_results_ready is still false |
| Stats.SortAscending | dt.h:185-186 | the sorted copy is in ascending order and is a permutation of the samples |
| Stats.SortedPermutationUnique | dt.h:185-186 | two sorted permutations of the same samples are equal, so the sorted copy does not depend on the sorting algorithm |
| Stats.SumPermutation | dt.h:158-163 | the sum, and so the mean, does not depend on the order of the samples |
| Stats.MeanBounds | dt.h:158-163 | the mean of samples within [lo, hi] is within [lo, hi] |
| Stats.Median | dt.h:142-154 | 0 for an empty vector; for an even count, twice the median is the sum of the two middle values; in a sorted vector, the first half (rounded up) is at most the median and the second half is at least it, which for an odd count makes it the middle value |
| Stats.MedianEvenIsMean | dt.h:142-148 | for an even count the median is the Mean of the two middle values |
| Stats.Mean | dt.h:158-163 | the mean times the count is the sum of the samples |
| Stats.MeanPermutation | dt.h:186-188 | the mean does not depend on order: any permutation of the samples, the sorted copy among them, has the same mean |
| Stats.MedianWithinRange | dt.h:143-154 | the median of a sorted non-empty vector lies between its smallest and largest value |
| Stats.MedianExamples | stuff/example_and_tests.cpp:20-37 | the median of [] is 0, of [2] is 2, of [1,2,3] is 2, of [2,4] is 3 and of [1,2,3,4] is 2.5 |
| Stats.SortedLastIsMax | dt.h:190 | the last element of the sorted copy is one of the samples and is at least every sample |
| Stats.SortedCopyFacts | dt.h:186-190 | the median and mean of the sorted copy lie between its first and last element, and its mean equals the mean of the samples in recorded order |
| Stats.SquaredDeviationsNonNegative | dt.h:171-175 | the accumulated sum of squared deviations is never negative |
| Stats.BesselVarianceExample | stuff/example_and_tests.cpp:39-43 | the test sample has mean 77 and squared deviations 2018; its corrected variance lies strictly between 14.9738² and 14.9742², so the deviation is 14.974 to within 2e-4 |
| Stats.GetMean | dt.h:158-163 | the summing loop returns the sum divided by the count; mean × count equals the sum |
| Stats.GetBesselVariance | dt.h:167-177 | the squaring loop returns the sum of squared deviations divided by n - 1, which is never negative |
| ZoneResults.ResultOf | dt.h:182-191 | one zone's result has the zone's name and a sorted permutation of its samples; the worst time is a sample and at least every sample; the mean is the mean of the samples; the median is the median of the sorted copy; median and mean lie between the smallest sample and the worst time |
| ZoneResults.ResultsOf | dt.h:180-194 | one result per zone, in zone order, each with the zone's name, a sorted permutation of its samples and the mean of its samples |
| ZoneResults.ResultsOfUnique | dt.h:180-194 | a sequence holding each zone's result in zone order is ResultsOf(zones) |
| ZoneResults.GetZoneResult | dt.h:183-191 | the loop body for one zone computes exactly the zone's summary (sorted copy, median, mean by the summing loop, last element as worst) |
| ZoneResults.GetResults | dt.h:180-194 | the loop returns exactly the per-zone summaries, one per zone in zone order |
| Profiler.Session.constructor | dt.h:43-60 | a new session is Ready with no zones and zero counters, satisfies the invariant, and has no results |
| Profiler.Session.Zone | dt.h:484-502 | the zone list becomes Register(zones, name); it is non-empty, starts with the null zone and holds the name at exactly one index; a known name leaves it unchanged; the answer is false exactly for the zone under test while Measuring outside the baseline sub-pass; with a negative sample target, appending a zone throws std::length_error (exactly when the name was unknown), after only the null zone on the very first call; the invariant is kept either way |
| Profiler.Session.Start | dt.h:505-508 | Ready becomes Starting; every other status is left as it is |
| Profiler.Session.ResetState | dt.h:133-139 | the target, the counter and the warmup counter are reset; every zone's samples are cleared with names and order kept; status is untouched |
| Profiler.Session.RecordSlice | dt.h:197-200 | the time is appended to the zone under test only, and the counter is incremented |
| Profiler.Session.StartNextZoneMeasurement | dt.h:203-206 | the target moves to the next zone and the counter is reset; the warmup counter is not touched |
| Profiler.Session.Evaluate | dt.h:466-479 | the results are the per-zone summaries; the report text is rendered from them; the callback receives them when one is set; the session becomes Ready |
| Profiler.Session.Slice | dt.h:511-531 | the fields change exactly as SliceStep says, and the invariant is kept; the slice that ends a pass stores the results of full zones, renders them, calls the callback and leaves results available; any other slice leaves results, report text and callback untouched |
| Profiler.Session.AreResultsReady | dt.h:576-578 | as written, the flag is false on every valid session |
| Profiler.Session.ResultsAvailable | dt.h:576-578 | corrected readiness flag: when it holds, the report text is the rendering of the stored results; a Ready session without it has an empty report text; it turns true on the evaluating slice and false on clear_results and factory_reset |
| Profiler.Session.ClearResults | dt.h:581-584 | results and report text are emptied, nothing else changes, and the invariant is kept, so a second call changes nothing |
| Profiler.Session.FactoryReset | dt.h:587-592 | no zones; status Ready; target and counter 0; warmup counter from the configuration; results and report text empty; the invariant holds |
| Report.MaxLength | dt.h:211-219 | the result is at least the floor and at least every length; it equals the floor or one of the lengths |
| Report.GetMaxZoneNameLen | dt.h:211-219 | the loop returns the longest name length, but at least the minimum |
| Report.NameColumnWidth | dt.h:429-432 | at least 3 + 4 + 1; every "w/o " + name + ":" fits; it equals the minimum or one of those lengths |
| Report.RowLabel | dt.h:445-450 | "all:" for the baseline row; "w/o " followed by the zone's name and ":" for every other row |
| Report.RowLabelsFit | dt.h:429-432 | every row label (`all:` or `w/o <name>:`) fits in the name column width |
| Report.RowLabelsDistinct | dt.h:445-450 | rows of differently named zones get different labels, and no zone row is labelled like the baseline |
| Report.GetTableRow | dt.h:341-354 | the cells are kept in order; the width is at least 3, at least every cell's length, and equals 3 or one of the cell lengths |
| Report.DigitsBeforePoint | dt.h:247-252 | 0 exactly for 0; otherwise d with 10^(d-1) ≤ \|n\| < 10^d |
| Report.DigitsUnique | dt.h:247-252 | that d is the only one satisfying the bound, i.e. floor(log10 \|n\|) + 1 |
| Report.DigitsExamples | stuff/example_and_tests.cpp:45-56 | 99 → 2, 10 → 2, -10 → 2, 5 → 1, 55 → 2, 0 → 0 |

## Left out

- Wall-clock timing: the no-argument `slice()`, `get_ms_from_dt` and the `t0` field (dt.h:84-90, 535-547). The elapsed time is a parameter of `Slice`.
- Console output: the `printf` in `evaluate`. Also the two-pass `snprintf` sizing in `header_print`, `row_print` and `get_result_str`, with its null-terminator handling (dt.h:383-461, 474-475).
- Numeric formatting: `get_num_str`, `get_fractional_string`, `get_percentage` and `get_cell_str` rely on `log10`, `modf`, `pow` and `round` (dt.h:255-328). The report text is therefore a rendering function given to the session's constructor. `Report` models the layout rules of `get_result_str` separately; `render` is not tied to them.
- The fps conversion `1000 / x` and `get_result_eval` (dt.h:225-244). These need floating point.
- The report and time modes, `ReportOutMode` and `ReportTimeMode`. They only select console output and units.
- Config setters (dt.h:551-573). They are plain assignments, so the configuration is fixed per session.
- The completion callback (dt.h:476-477). It is foreign code. The model records each call by appending the result set to `callbackLog`.
- The vector `reserve` call in `get_table_row` (dt.h:347). It has no observable effect. The calls in `zone()` (dt.h:487, 492) are modelled only through the `std::length_error` they throw for a negative sample target (`Profiler.Session.Zone`). For a target of 0 or more they have no observable effect.
- Square root in `get_std_dev` (dt.h:176). `ZoneResult` has no `std_dev` field.
- Stats.GetBesselVariance: requires at least two samples. For one sample the source divides 0 by 0 and gets NaN; that value is not modelled.
- Stats.GetMean: requires at least one sample. For an empty vector the source divides by zero.
- Floating-point rounding and IEEE special values. Frame times are exact reals.
- Report.GetMaxZoneNameLen: names are modelled as sequences of characters, and their length counts characters. `std::string::length()` counts bytes, so for a name with non-ASCII characters the source's name column is wider (for "überschrift" 17 rather than 16 in UTF-8). The same holds for `Report.NameColumnWidth` and `Report.RowLabel`. The statistics cells are ASCII, so `Report.GetTableRow` is not affected.
- Report.DigitsBeforePoint: models the integer instantiation only. The 32-bit `int` overflow of `std::abs(INT_MIN)` is not modelled. Fractional arguments (the 0.1 / 0.11 / 0.01 test cases) are left out with the floating-point numerics.
- Profiler.Session.Slice: requires that a recording slice finds its target zone. The source indexes the zone list unchecked, so a recording slice that arrives while no zone has been registered indexes an empty list, which is undefined behaviour. A pass started with no zones is fine as long as a zone() call comes before the first recording slice.
- The doctest `factory_reset` test (stuff/example_and_tests.cpp:77-85). It compares against a status that `dt.h` does not define.

## Findings

| source | as written | input that shows it | evidently intended | confidence | as-written member | corrected member |
|---|---|---|---|---|---|---|
| dt.h:576-578 | `are_results_ready()` returns `status == Ready && recorded_slices > 0` | any completed pass: the evaluating slice runs `start_next_zone_measurement`, which sets `recorded_slices` to 0 before the session becomes Ready; `start`, `reset_state` and `factory_reset` never make it positive while Ready, so the answer is always false | true once a pass has been evaluated and its results are still stored, false after `clear_results` or `factory_reset`; proved in `Profiler.Session.Slice`, `Profiler.Session.ClearResults` and `Profiler.Session.FactoryReset` | not executed | Profiler.Session.AreResultsReady | Profiler.Session.ResultsAvailable |
