# Appliance energy usage and savings — a Dafny model

This project models the interval-extraction engine of a small TypeScript library.
The library works on one appliance's on/off event log. It computes:

- **energy usage**: minutes the appliance was on during a 1440-minute day;
- **energy savings**: minutes an energy-saving device kept the appliance switched off;
- **usage for one day** of a multi-day log. Day `d` covers minutes `(d-1)*1440 … d*1440`.
  Its events are rebased onto `[0, 1440]`, and the state in effect at the day start is inferred.

Every metric works the same way:

1. Pad the events with a sentinel `(initial, 0)` in front and `(last known state, 1440)` behind.
2. Walk consecutive events once, carrying a "left bound". At each event a *region rule* says
   whether the span from the bound to that event is a region, and which event becomes the next bound.
3. Add up the region durations.

The two rules are tables on `(left.state, right.state, right.timestamp == 1440)`.

Files and modules follow the source files:

| file | module | source |
|---|---|---|
| `constants.dfy` | `Constants` | `constants/index.constants.ts`: the states, `MAX_IN_PERIOD = 1440`, days 1…365 |
| `types.dfy` | `Types` | `@types/index.d.ts`: data point, profile, region, rule; `Sorted`; `Option`, `Result` |
| `util.dfy` | `Util` | `utils/util.ts`: `findRegions`, `sumRegions`, `changeTimeScaleToDay1` |
| `energy.dfy` | `Energy` | `index.ts`: both rule tables, padding, the three metrics |

How the source's forms are modelled:

- The three loops of `utils/util.ts` are methods with loops: `FindRegions`, `SumRegions`
  and `ChangeTimeScaleToDay1`. Each is proved against a specification function.
  - `FindRegions` and `SumRegions` are proved against `RegionsOf` (built on `Scan`) and `SumOf`.
    Both are defined prefix by prefix, the way the loops run.
  - `ChangeTimeScaleToDay1` is proved against `DayEvents` and `InferredState`, which follow the
    loop for any order of events. On sorted events `InferredState` equals the closed form
    `DayStartState`, built on `FirstInDay` and `LastBeforeDay`.
  - A separate lemma proves each property of these functions.
- The rule callbacks are plain functions, `UsageRule` and `SavingsRule`. They share the type
  `Rule<S>` and are passed to `FindRegions` as function values.
- The two metric entry points are methods. They follow the source's steps: prepend, append,
  find the regions, sum them. Each is tied to a pure function (`EnergyUsage`, `EnergySavings`).
  `CalculateEnergyUsageForDay` composes `ChangeTimeScaleToDay1` with `CalculateEnergyUsageSimple`.
- The `get*DataPoint` helpers (index.ts:267-279) are `GetApplianceStateDataPoint` and
  `GetEnergySaverApplianceStateDataPoint`. Each just builds a `DataPoint`.
- The validator is external. Its guarantees appear as preconditions:
  - states are members of the enumeration, which the Dafny types enforce;
  - `1 <= day <= 365` is a `requires`.
  - Sortedness and the `[0, 1440]` range are not validated by the source. They are hypotheses of
    the properties that need them.
  - The first finding below uses one validator rule: timestamps must be `> 0` (index.validator.ts:60).
    `TimestampsValid` models it.

Two behaviours of the code worth knowing when reading the model:

- The doc-comment profile (index.ts:43-53), initial ON with events off@50, on@304, off@600, uses
  50 + 296 = 346 minutes (`UsageDocExample`): the last event is an OFF, so no span reaches minute 1440.
- When the first event of a day lies exactly at the day start, the inferred initial state is that
  event's own state (utils/util.ts:73-74), not the state carried from the day before.
  `DayStartStateIsCarriedState` states both cases.

What the metrics measure is stated against reference definitions on the padded timeline:

- `OnTime`: the sum, over consecutive events, of the span after every ON event. Usage equals it
  for every profile (`UsageIsOnTime`).
- `Cause` and `DeviceOffTime`: the cause of the current state is reset by ON and otherwise kept
  once the appliance is off, so an OFF after an AUTO_OFF is still a device switch-off
  (index.ts:135-138). `DeviceOffTime` sums the spans whose cause is AUTO_OFF. Savings equal it
  on a day timeline unless an AUTO_OFF repeats while the device already keeps the appliance off;
  that case is the second finding below.

## Model

| member | source | states |
|---|---|---|
| Util.Scan | utils/util.ts:17-26 | the fold emits at most one region per event after the first: at most n-1 regions for n events |
| Util.RegionsOf | utils/util.ts:13-29 | zero or one event yields no regions; n events yield at most n-1 |
| Util.FindRegions | utils/util.ts:13-29 | the loop returns exactly the regions of the prefix-by-prefix fold `RegionsOf`, for every input including the empty one |
| Util.BoundAdvances | utils/util.ts:17-25 | the first left bound is the first event; after each evaluation the left bound is the rule's second component |
| Util.RunKeepsState | utils/util.ts:17-25 | a run of events on which the rule reports nothing and keeps the bound leaves the regions and the bound unchanged |
| Util.RegionsAtEmittedIndices | utils/util.ts:19-25 | the rule is evaluated once at each index 1..n-1; the k-th region is (left bound then in effect, event at the k-th reporting index); reporting indices strictly increase; every index where the rule reports a region contributes one |
| Util.EmittedAtIncreasing | utils/util.ts:19-25 | the indices at which the rule reports a region lie in 1..n-1 and strictly increase |
| Util.EmittedAtComplete | utils/util.ts:19-25 | every index at which the rule, given the bound then in effect, reports a region is among the reporting indices |
| Util.RegionsAtReportingIndices | utils/util.ts:19-25 | there is one region per reporting index, made of the bound then in effect and the event at that index |
| Util.RegionsSatisfy | utils/util.ts:21-24 | every region emitted satisfies any property the rule guarantees whenever it reports a region |
| Util.ScanBounds | utils/util.ts:17-26 | on sorted events, with a rule whose new bound is one of its arguments and the right one on every region: the carried bound stays between the first and last event; regions are disjoint; their sum is between 0 and the bound minus the first timestamp |
| Util.RegionsDisjointWithinEvents | utils/util.ts:19-25 | same hypotheses: regions go forward in time, do not overlap in order, lie between the first and last event, and sum to between 0 and the time spanned |
| Util.SumRegions | utils/util.ts:34-41 | the loop returns the sum of right minus left timestamps over the regions (`SumOf`, 0 for none) |
| Util.SumOfAppend | utils/util.ts:34-41 | the sum is additive over concatenation of region lists |
| Util.DayEvents | utils/util.ts:69-79 | never more events than the month has; every rebased timestamp lies in [0, 1440] |
| Util.FirstInDay | utils/util.ts:69-70 | the index of the first event inside the inclusive day window, or none when no event is inside it |
| Util.LastBeforeDay | utils/util.ts:65-67 | the index of the last event before the day start, or none when there is none |
| Util.ChangeTimeScaleToDay1 | utils/util.ts:47-84 | the loop keeps exactly `DayEvents` and infers `InferredState` for every month; on sorted month events the inferred state is `DayStartState`: the first in-day event's own state if it is exactly at day start, else the preceding event's state (the month's initial for event 0), else (no in-day event) the last state before the day or the initial |
| Util.InferredStateIsDayStartState | utils/util.ts:65-76 | on sorted month events the state the loop carries equals the three-case closed form `DayStartState` |
| Util.DayStartStateIsCarriedState | utils/util.ts:65-76 | on sorted events the inferred state is the state carried from before the day, unless the first in-day event lies exactly at the day start, where it is that event's state |
| Util.DayEventsAppend | utils/util.ts:58-81 | slicing distributes over concatenation, so the kept events keep their original order |
| Util.DayEventsMembers | utils/util.ts:58-81 | an event is kept exactly when it is the rebased copy (same state, timestamp minus (day-1)*1440) of a month event in the inclusive window |
| Util.DayEventsSorted | utils/util.ts:69-79 | slicing a sorted month yields a sorted day |
| Util.BoundaryEventEndsDay | utils/util.ts:69 | an event at exactly d*1440 appears, with its state, as minute 1440 of day d |
| Util.BoundaryEventStartsNextDay | utils/util.ts:69 | an event at exactly d*1440 appears, with its state, as minute 0 of day d+1 |
| Energy.GetApplianceStateDataPoint | index.ts:267-272 | the usage data point carries exactly the given state and timestamp |
| Energy.GetEnergySaverApplianceStateDataPoint | index.ts:274-279 | the savings data point carries exactly the given state and timestamp |
| Energy.UsageRule | index.ts:72-88 | the usage table in closed form: a region exactly when left is ON and right is OFF or at 1440; the ON left bound is kept exactly when no region closes, otherwise the bound moves to the right event |
| Energy.SavingsRule | index.ts:157-191 | the savings table in closed form: a region exactly when left is AUTO_OFF and right is ON or at 1440; the left bound is kept for OFF→AUTO_OFF and for a non-terminal AUTO_OFF→OFF, otherwise it moves to the right event (also for a non-terminal AUTO_OFF→AUTO_OFF) |
| Energy.UsageRuleClosesOnRight | index.ts:76-87 | the usage rule returns left or right as the new bound, and right whenever it reports a region |
| Energy.SavingsRuleClosesOnRight | index.ts:161-190 | the savings rule returns left or right as the new bound, and right whenever it reports a region |
| Energy.Pad | index.ts:91-98 | the padded events are (initial, 0), then the events unchanged, then (last event's state, or initial if none, 1440): length n + 2 |
| Energy.PadSorted | index.ts:194-204 | padding sorted events in [0, 1440] gives a sorted sequence |
| Energy.UsageWithinDay | index.ts:33-35 | for sorted events in [0, 1440], usage lies in [0, 1440] |
| Energy.SavingsWithinDay | index.ts:153-212 | for sorted events in [0, 1440], savings lie in [0, 1440] |
| Energy.UsageForDayWithinDay | index.ts:249-263 | for sorted month events, the usage of any day lies in [0, 1440] |
| Energy.CalculateEnergyUsageSimple | index.ts:68-107 | the method computes `EnergyUsage` (pad, usage regions, sum), which is the on time of the padded timeline; within [0, 1440] for sorted events in [0, 1440] |
| Energy.CalculateEnergySavings | index.ts:153-212 | the method computes `EnergySavings` (pad, savings regions, sum); within [0, 1440] for sorted events in [0, 1440]; on such events with no repeated AUTO_OFF it is the device-off time |
| Energy.CalculateEnergyUsageForDay | index.ts:249-263 | for every month the result is the usage of the one-day profile (`InferredState`, `DayEvents`), that is the on time of its padded timeline; for sorted month events it lies in [0, 1440] |
| Energy.UsageRegionsAreOnSpans | index.ts:76-87 | every usage region starts at an ON bound and ends at an OFF event or at minute 1440 |
| Energy.SavingsRegionsAreAutoOffSpans | index.ts:161-190 | every savings region starts at an AUTO_OFF bound and ends at an ON event or at minute 1440: manual switch-offs contribute nothing |
| Energy.OnRunKeepsBound | index.ts:79-85 | after an ON bound, any run of ON events before minute 1440 reports nothing and keeps the bound, so repeated ONs never split a usage span |
| Energy.OffRunKeepsAutoOffBound | index.ts:178-187 | after an AUTO_OFF bound, any run of OFF events before minute 1440 reports nothing and keeps the AUTO_OFF bound up to the closing ON |
| Energy.AutoOffRunKeepsOffBound | index.ts:161-165 | after a manual OFF bound, any run of AUTO_OFF events reports nothing and keeps the OFF bound |
| Energy.UsageScanTracksOnTime | index.ts:72-88 | after every prefix, the usage regions plus the span still open from an ON bound equal the on time of that prefix |
| Energy.UsageIsOnTime | index.ts:29-35 | for every profile, usage equals the time the padded timeline spends after ON events ("the amount of time it is switched on") |
| Energy.SavingsIsDeviceOffTime | index.ts:131-138 | on a sorted day timeline with no repeated AUTO_OFF, savings equal the time whose cause is a device switch-off, redundant OFFs after an AUTO_OFF included |
| Energy.SavingsScanAgreesWithCorrected | index.ts:157-191 | without a repeated AUTO_OFF the table as written folds exactly like the corrected one |
| Energy.CorrectedSavingsRule | index.ts:157-191 | the corrected table reports the same regions as written and keeps an AUTO_OFF bound across every non-terminal OFF or AUTO_OFF |
| Energy.CorrectedSavingsStep | index.ts:157-191 | one corrected fold step keeps the bound's state equal to the cause and grows closed plus open spans by exactly the device-off time of the step |
| Energy.CorrectedSavingsScanTracksDeviceOffTime | index.ts:157-191 | after every prefix of a sorted timeline ending by minute 1440, the corrected regions plus the open AUTO_OFF span equal the device-off time so far |
| Energy.CorrectedSavingsIsDeviceOffTime | index.ts:131-138 | with the corrected table, savings equal the device-off time for every sorted day timeline |
| Energy.RepeatedAutoOffLosesSavings | index.ts:188-189 | as written, ON; auto-off@100, auto-off@200, on@300 saves 100, although the device-off time is 200 |
| Energy.RepeatedAutoOffCorrected | index.ts:131-138 | with the corrected table the same profile saves 200 |
| Energy.UsageAllDayOn | index.ts:33-35 | initial ON with no events uses 1440 |
| Energy.UsageAllDayOff | index.ts:76-88 | initial OFF with no events uses 0 |
| Energy.UsageDocExample | index.ts:43-53 | ON; off@50, on@304, off@600 uses 50 + 296 |
| Energy.SavingsExample | index.ts:135-138 | ON; auto-off@100, off@150, on@200 saves exactly 100 |
| Energy.EnergyUsageForDayAsWritten | index.ts:253-262 | as written, a day either yields the corrected usage or fails with the invalid-timestamp message of index.validator.ts:60 |
| Energy.DayStartEventRejected | index.ts:253-262 | as written, any month event exactly at the day start makes the day's usage a validation failure |
| Energy.DayStartFindingExample | index.ts:253-262 | the month (ON; off@1440) passes the timestamp rule, yet day 2 is rejected as written |
| Energy.DayStartFindingCorrected | index.ts:253-262 | the corrected composition gives usage 0 for the month (ON; off@1440), day 2 |
| Energy.AsWrittenAgreesAwayFromDayStart | index.ts:253-262 | for validated month events with none exactly at the day start, the program's result is the corrected usage |

## Left out

- Input validation (index.validator.ts) and the error catalog (errors/) are not modelled: schema
  checks, message strings and the newline-joining of messages. Their guarantees appear as types and
  preconditions. The one exception is the timestamp rule that the finding needs.
- Caller-object aliasing is not modelled. The source reassigns `profile.events` on the caller's
  object when padding (index.ts:93, 98, 196, 204). Here profiles are values, so a metric cannot
  change its argument. For the same reason, "the month profile is never modified" and
  "findRegions only reads its input" hold by construction and are not stated as lemmas.
- JavaScript numbers are modelled as unbounded integers. String-valued enums are modelled as datatypes.
- FindRegions: for an empty event list the source reads `dataPoints[0]` (undefined) and never uses
  it. The model returns no regions without reading it.
- The three-case closed form of the inferred day-start state (`DayStartState`) is stated only for
  timestamp-sorted month events. On unsorted events the loop can overwrite the state after the first
  in-day event; `InferredState` follows the loop in that case too.
- CalculateEnergySavings: the device-off time is promised only when no AUTO_OFF repeats while the device
  already keeps the appliance off. As written, the code loses time in that case (second finding).
- Day additivity (the usage of a whole multi-day log equal to the sum of its days' usages) is not
  stated, because the code does not have it: the one-day metric always closes at minute 1440, so
  timestamps past 1440 are not meaningful input to it.
- Monotonicity of usage under inserted ON/OFF pairs is not stated separately; `UsageIsOnTime`
  gives the exact value of usage for every input instead.

## Findings

| source | as written | input that shows it | evidently intended | confidence | as-written member | corrected member |
|---|---|---|---|---|---|---|
| index.ts:259-262 with index.validator.ts:60 and utils/util.ts:73-74 | `calculateEnergyUsageForDay` passes the sliced day profile to `calculateEnergyUsageSimple`. That function validates again and requires every timestamp to be `> 0`. A month event exactly at `(day-1)*1440` is rebased to 0, so the call throws "Invalid Timestamp in one of the event". The branch at util.ts:73-74, written for exactly this event, can therefore never lead to a result. | month `{initial: ON, events: [{OFF, 1440}]}` (valid), day 2 | the day's usage computed from the sliced profile: 0 here, and in [0, 1440] for any sorted month | not executed; high (depends only on the strict `greater(0)` bound) | Energy.DayStartEventRejected | Energy.CalculateEnergyUsageForDay |
| index.ts:188-189 with index.ts:131-138 | In the savings table, a non-terminal AUTO_OFF after an AUTO_OFF bound falls through to the final branch. That branch moves the bound to the new AUTO_OFF without reporting a region, so the device-off time since the first AUTO_OFF is dropped. This happens directly or after intervening OFFs. The documentation asks for all time the device kept the appliance off, and for redundant events after an AUTO_OFF to still count. | profile `{initial: ON, events: [{AUTO_OFF, 100}, {AUTO_OFF, 200}, {ON, 300}]}`: savings 100 | the device-off time, 200 here: a repeated AUTO_OFF keeps the earlier AUTO_OFF bound, as a manual OFF does | not executed; high (follows from the branch order alone) | Energy.RepeatedAutoOffLosesSavings | Energy.CorrectedSavingsIsDeviceOffTime |

The as-written composition is `EnergyUsageForDayAsWritten`.

- `DayStartEventRejected` shows that it fails whenever a month event lies exactly at the day start.
- `DayStartFindingExample` exhibits the concrete input above.

The rest of the model uses the corrected composition: `CalculateEnergyUsageForDay`, specified by `EnergyUsageForDay`.

- `UsageForDayWithinDay` proves its bound.
- `DayStartFindingCorrected` gives its value on the input above.
- `AsWrittenAgreesAwayFromDayStart` shows that both coincide when no event lies at the day start.

For the savings table, `CalculateEnergySavings` and `SavingsRule` model the code as written.

- `RepeatedAutoOffLosesSavings` exhibits the input above.
- `CorrectedSavingsRule` keeps the AUTO_OFF bound on a repeated AUTO_OFF. `CorrectedSavingsIsDeviceOffTime`
  proves that its savings are the device-off time on every sorted day timeline, and `RepeatedAutoOffCorrected`
  gives 200 on the input above.
- `SavingsScanAgreesWithCorrected` shows that both tables coincide when no AUTO_OFF repeats. Through it,
  `SavingsIsDeviceOffTime` and the contract of `CalculateEnergySavings` state the device-off time for the code
  as written in that case.
