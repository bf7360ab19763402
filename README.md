# KV IoT dashboard — a model of its client-side state logic

The dashboard is a React front end for a KV IoT API. It polls the API for sensors and actuators every
ten seconds and merges each answer into its snapshot. It then fetches per-entity details in throttled
batches and tracks whether the API is reachable. It keeps a capped activity log, sends actuator
commands optimistically, and exports everything as CSV. This project models that logic in Dafny and
proves what it does:

- `Reconcile`: the pure updaters of `Frontend/src/pages/Index.tsx`:
  - the sensor and actuator list merges, and per-entity sample and state updates;
  - the optimistic command with its confirm/keep/revert decision;
  - the activity log, the energy-saved figure, and the poll's error classification.
- `Units`: `getUnitForDataType`, a first-match-wins classifier over the data type and the lower-cased sensor name.
- `Batching`: how the detail fan-outs slice the entity lists (10 sensors, 3 actuators per batch) and pause between batches.
- `Dashboard`: the page as a class. Its fields are sensors, actuators, `apiConnected`, `apiError`, activity events and the data mode. Its methods are:
  - one poll (`Poll`);
  - the two detail fan-outs, written as loops over `batchStart` (`FetchSensorDetails`, `FetchActuatorStates`);
  - their composition (`LoadData`);
  - the actuator command (`ToggleActuator`).
- `DataExport`: `createCSV`, the three row builders and the combined section layout of `exportToCSV`.
- `EnergyMetrics`: the enabled-actuator count, the power-sensor selection with its 100 W fallback, and `formatUptime`.
- `ApiDebugPanel`: `getStatusColor` and the `recentLogs` window.
- Support modules: `Wrappers` (`Option`), `Seqs` (reverse, concat), `Text` (substring search, lower-casing, join/split, decimal digits, `padStart`), `Entities` (sensors, actuators, samples, events).

Every network answer is an input: the list responses, each detail call's result, the write response or
its error. Clocks are a `now` parameter. A thrown JavaScript value is `None` when it is not an `Error`,
and `Some(message)` when it is.

Where the code and its own comments disagree, or the code misses what it evidently aims at, the model follows the code:

- The sensor merge keeps `lastSample` from the previous snapshot, and a sample in the list response is
  discarded (`Reconcile.ListedSampleDiscarded`).
- The 502 and 429 branches are meant to report each outage once. Their guards fail to do that, because neither stored message contains the text the guard tests for:
  - The 502 guard looks for "gateway", and the 502 message lacks it. A repeated 502 re-emits its event (`Reconcile.RepeatedGatewayRenotifies`, `Dashboard.RepeatedGatewayErrors`).
  - The 429 guard looks for "rate-limit", and no stored message has that hyphenated form. A repeated 429 always re-emits its event (`Reconcile.RateLimitAlwaysNotifies`, `Dashboard.RepeatedRateLimits`).
- The 502 guard can fire in one case: after a lost connection stored an error that itself contains "gateway" (`Reconcile.GatewayGuardSuppressesAfterLostConnection`).

## Model

| member | source | states |
|---|---|---|
| Reconcile.Find | Frontend/src/pages/Index.tsx:229 | `prev.find` by id, over sensors and over actuators (Index.tsx:300): `None` exactly when no entry has the id, else the first entry with it |
| Reconcile.EnrichSensors | Frontend/src/pages/Index.tsx:228-235 | one entry per listed sensor, in order, each the listed sensor with unit and previous sample filled in |
| Reconcile.SensorListMerge | Frontend/src/pages/Index.tsx:224-235 | an empty response leaves the sensors unchanged; otherwise exactly the response's ids in order, with name and data type kept, unit = `getUnitForDataType(dataType, name)`, and `lastSample` from the first previous entry with that id (absent for a new id) |
| Reconcile.ListedSampleDiscarded | Frontend/src/pages/Index.tsx:233 | the sample carried in the list response has no effect on the merged entry |
| Reconcile.MergeActuators | Frontend/src/pages/Index.tsx:299-311 | one merged entry per listed actuator, in order |
| Reconcile.ActuatorListMerge | Frontend/src/pages/Index.tsx:295-311 | an empty response leaves the actuators unchanged; otherwise the response's ids in order, and the state is the response's if defined, else the previous entry's, else `false` for BOOLEAN and `0` otherwise; unit "on/off" for BOOLEAN, else "value" |
| Reconcile.WithSample | Frontend/src/pages/Index.tsx:266-270 | same length; entries with the id get the sample; every other entry is unchanged |
| Reconcile.WithState | Frontend/src/pages/Index.tsx:328-332 | same length; entries with the id get the state; every other entry is unchanged |
| Reconcile.WithActuator | Frontend/src/pages/Index.tsx:727-729 | same length; entries with the id are replaced wholesale; every other entry is unchanged |
| Reconcile.WithSampleLastWins | Frontend/src/pages/Index.tsx:266-270 | two sample writes to one id: the later one wins |
| Reconcile.WithStateCommutes | Frontend/src/pages/Index.tsx:328-332 | state writes to different ids commute |
| Reconcile.SampleDetailIsLocal | Frontend/src/pages/Index.tsx:252-276 | one sample result changes only the samples of entries with the target's id, and only when it is a non-empty response (newest sample, converted to °F for °F sensors); a thrown call or an empty response changes nothing |
| Reconcile.StateDetailIsLocal | Frontend/src/pages/Index.tsx:325-337 | one state result changes only entries with the target's id, and only when the state is defined; a thrown call or an undefined state changes nothing |
| Reconcile.AfterAllSamplesExtend | Frontend/src/pages/Index.tsx:245-283 | the fan-out over one more result is that result applied to the state after the earlier ones |
| Reconcile.AfterAllStatesExtend | Frontend/src/pages/Index.tsx:320-344 | the same for actuator states |
| Reconcile.SampleFanOutIsLocal | Frontend/src/pages/Index.tsx:245-283 | the whole sensor fan-out keeps length, order, ids, names, units and data types; it changes only samples |
| Reconcile.StateFanOutIsLocal | Frontend/src/pages/Index.tsx:320-344 | the whole actuator fan-out keeps length, order and everything but the state |
| Reconcile.MergeThenDetail | Frontend/src/pages/Index.tsx:227-276 | a re-listed sensor keeps its previous sample through the merge until a detail result replaces it |
| Reconcile.ToggleValue | Frontend/src/pages/Index.tsx:598-606 | the negation of a boolean state for BOOLEAN actuators; otherwise the numeric state, or 0 when it is not a number |
| Reconcile.ToggleTwice | Frontend/src/pages/Index.tsx:601-606 | commanding twice restores a boolean actuator; a second command on a numeric one writes the same value again |
| Reconcile.RequestTimeoutSubsumed | Frontend/src/pages/Index.tsx:774-775 | the "Request timeout" test adds nothing beyond the "timeout" test |
| Reconcile.ToggleOutcomeCases | Frontend/src/pages/Index.tsx:682-814 | a command changes only entries with the target's id: a valid response (truthy id, defined state) replaces them; an invalid one keeps the optimistic value; a failure keeps it when historical or when the message contains "404", "endpoint", "timeout", "Unable to control" or "not", or its lower-case form contains "fetch"; otherwise the pre-command state is restored and a warning is logged |
| Reconcile.RevertRestores | Frontend/src/pages/Index.tsx:799-802 | a reverted command restores the snapshot exactly, when the target was the snapshot's own entry for its id |
| Reconcile.HistoricalKeepsOptimistic | Frontend/src/pages/Index.tsx:770-797 | in historical mode a failed write always keeps the optimistic value and logs a local update |
| Reconcile.Logged | Frontend/src/pages/Index.tsx:128-136 | the new event is first, the old events follow in order, and the log holds min(50, old length + 1) events |
| Reconcile.LoggedAllNewestFirst | Frontend/src/pages/Index.tsx:135 | after any run of events the log is the newest 50 of all events, newest first |
| Reconcile.OffCount | Frontend/src/pages/Index.tsx:76 | the number of actuators whose state is `false` is at most the number of actuators |
| Reconcile.EnergySavedBounds | Frontend/src/pages/Index.tsx:74-79 | the figure is 100 × the off count, between 0 and 100 per actuator; it is 0 exactly when none is off and the maximum exactly when all are |
| Reconcile.GatewayGuardMissesOwnNotice | Frontend/src/pages/Index.tsx:384-385 | the stored 502 message does not contain "gateway" |
| Reconcile.RateLimitGuardMissesNotices | Frontend/src/pages/Index.tsx:393-394 | neither stored notice contains "rate-limit" |
| Reconcile.RateLimitGuardMissesOwnNotice | Frontend/src/pages/Index.tsx:393-394 | the stored 429 message does not contain "rate-limit" |
| Reconcile.RateLimitGuardMissesGatewayNotice | Frontend/src/pages/Index.tsx:385-393 | the stored 502 message does not contain "rate-limit" |
| Reconcile.PollSucceededConnects | Frontend/src/pages/Index.tsx:353-361 | a successful poll leaves the page connected; when it was disconnected, it clears the error and emits one success event; otherwise it changes nothing and emits none |
| Reconcile.PollFailedNeverConnects | Frontend/src/pages/Index.tsx:365-419 | a failed poll never connects; the 502/429 branches keep the connection flag; any other error disconnects with one event only when connected, and changes nothing otherwise |
| Reconcile.RateLimitNoticeNeverStored | Frontend/src/pages/Index.tsx:383-419 | no poll outcome stores an error containing "rate-limit" |
| Reconcile.RateLimitAlwaysNotifies | Frontend/src/pages/Index.tsx:392-405 | from a state whose error lacks "rate-limit", a 429 poll (not also a 502) always stores the throttling message and emits its warning |
| Reconcile.RepeatedGatewayRenotifies | Frontend/src/pages/Index.tsx:383-391 | two 502 polls in a row both emit the gateway warning |
| Reconcile.GatewayGuardSuppressesAfterLostConnection | Frontend/src/pages/Index.tsx:383-419 | when a lost connection stored a message containing "gateway", a following 502 is suppressed |
| Units.FirstMatchIsFirst | Frontend/src/pages/Index.tsx:428-462 | no unit exactly when no rule matches; otherwise the unit of a matching rule with no matching rule before it, so earlier rules win (a name with both "temp" and "power" gets "°F") |
| Units.UnitIsFirstMatchingRule | Frontend/src/pages/Index.tsx:425-466 | `getUnitForDataType` returns the first matching rule's unit, or the data-type fallback when none matches |
| Units.TwoKeywords | Frontend/src/pages/Index.tsx:429-436 | a two-keyword rule matches exactly when the lower-cased name contains either keyword |
| Batching.BatchesConcat | Frontend/src/pages/Index.tsx:245-246 | the batches concatenate back to the whole list |
| Batching.BatchesCount | Frontend/src/pages/Index.tsx:245 | there are ceil(n / size) batches |
| Batching.BatchAt | Frontend/src/pages/Index.tsx:246 | batch k is the slice starting at k × size |
| Batching.BatchSizes | Frontend/src/pages/Index.tsx:246 | every batch is non-empty, each has exactly `size` elements except the last, and the last has at most `size` |
| Batching.ScheduleShape | Frontend/src/pages/Index.tsx:280-282 | fetches and pauses alternate; a pause follows every batch except the last |
| Batching.ScheduleAdvance | Frontend/src/pages/Index.tsx:245-283 | the steps taken so far plus one more iteration's fetch and pause are still a prefix of the whole schedule |
| Batching.ScheduleStep | Frontend/src/pages/Index.tsx:245-283 | one loop iteration: fetch the current slice, pause if more remains, continue from the next start |
| Dashboard.Page.constructor | Frontend/src/pages/Index.tsx:30-39 | empty lists, disconnected, no error, empty log, historical mode |
| Dashboard.Page.SetDataMode | Frontend/src/pages/Index.tsx:39 | only the mode changes |
| Dashboard.Page.AddActivityEvent | Frontend/src/pages/Index.tsx:128-136 | the log becomes `Logged` of the old log and the new event, and nothing else changes |
| Dashboard.Page.Poll | Frontend/src/pages/Index.tsx:224-419 | the lists become the two merges (or stay, if the poll threw), the link and log follow the connectivity rules, and the returned targets are what the fan-outs fetch |
| Dashboard.Page.ApplySampleBatch | Frontend/src/pages/Index.tsx:249-276 | one batch of sample results applied in list order |
| Dashboard.Page.FetchSensorDetails | Frontend/src/pages/Index.tsx:244-283 | the loop leaves the sensors as the fold of every result, and its trace is exactly the 10-per-batch, 500 ms schedule |
| Dashboard.Page.ApplyStateBatch | Frontend/src/pages/Index.tsx:322-338 | one batch of state results applied in list order |
| Dashboard.Page.FetchActuatorStates | Frontend/src/pages/Index.tsx:319-344 | the loop leaves the actuators as the fold of every result, and its trace is exactly the 3-per-batch, 2000 ms schedule |
| Dashboard.Page.LoadData | Frontend/src/pages/Index.tsx:171-422 | one poll followed by both fan-outs |
| Dashboard.Page.ToggleActuator | Frontend/src/pages/Index.tsx:595-816 | the actuators become `ToggleOutcome` and the log gets the command's notice; nothing else changes |
| Dashboard.RepeatedRateLimits | Frontend/src/pages/Index.tsx:392-405 | connect, then two 429 polls: the log holds the success event and two throttling events |
| Dashboard.RepeatedGatewayErrors | Frontend/src/pages/Index.tsx:383-391 | connect, then two 502 polls: the log holds the success event and two gateway events |
| DataExport.Quote | Frontend/src/components/DataExport.tsx:77 | the cell in double quotes, its text unchanged inside |
| DataExport.RowLines | Frontend/src/components/DataExport.tsx:77 | one line per row, in order, each the quoted cells joined by "," |
| DataExport.RowLineRoundTrip | Frontend/src/components/DataExport.tsx:77 | a row without commas is recovered by splitting its line on "," and unquoting |
| DataExport.QuotesNotEscaped | Frontend/src/components/DataExport.tsx:77 | embedded quotes are not doubled: different rows can give the same line |
| DataExport.CSVLacksChar | Frontend/src/components/DataExport.tsx:74-79 | a character absent from headers and cells (other than `,` and `"`) is absent from every line |
| DataExport.CSVLines | Frontend/src/components/DataExport.tsx:74-79 | without newlines in the cells, the CSV splits into the unquoted header line followed by one line per row: \|rows\|+1 lines |
| DataExport.SensorRow | Frontend/src/components/DataExport.tsx:46-53 | id, name, unit, data type, the value, and the ISO time of timestamp × 1000; the value is "N/A" without a sample (or when its text is empty), the time "N/A" without a sample or when the timestamp is 0 |
| DataExport.StateText | Frontend/src/components/DataExport.tsx:62 | `state.toString()` fails exactly on an undefined state |
| DataExport.ActuatorRow | Frontend/src/components/DataExport.tsx:57-63 | five cells (id, name, unit, data type, state); no row for an undefined state |
| DataExport.ActivityRow | Frontend/src/components/DataExport.tsx:67-72 | four cells |
| DataExport.SensorRows | Frontend/src/components/DataExport.tsx:46 | one row per sensor, in order |
| DataExport.ActuatorRows | Frontend/src/components/DataExport.tsx:57 | one row per actuator, in order; fails exactly when some state is undefined |
| DataExport.ActivityRows | Frontend/src/components/DataExport.tsx:67 | one row per event, in order |
| DataExport.ExportFails | Frontend/src/components/DataExport.tsx:57-90 | the export fails exactly when some actuator state is undefined |
| DataExport.TablesLines | Frontend/src/components/DataExport.tsx:81-90 | three titled tables joined by newlines split into title, header, rows, blank line, in order |
| DataExport.ExportLines | Frontend/src/components/DataExport.tsx:43-90 | the export's lines are "SENSORS", the sensor header and rows, "", "ACTUATORS", the actuator header and rows, "", "ACTIVITY LOG", the activity header and rows |
| EnergyMetrics.EnabledCount | Frontend/src/components/EnergyMetrics.tsx:17-23 | the number of enabled actuators is at most the number of actuators |
| EnergyMetrics.EnabledCountExtremes | Frontend/src/components/EnergyMetrics.tsx:17-23 | the count is 0 exactly when none is enabled (BOOLEAN: state is `true`; else: a number > 0), and the total exactly when all are |
| EnergyMetrics.EnabledCountAppend | Frontend/src/components/EnergyMetrics.tsx:17-23 | the count over two lists is the sum of their counts |
| EnergyMetrics.PowerSensors | Frontend/src/components/EnergyMetrics.tsx:26-30 | the selection holds exactly the sensors with unit "W" or a name containing "power" or "current" in any case |
| EnergyMetrics.ShownPowerCases | Frontend/src/components/EnergyMetrics.tsx:44-46 | with no power sensor, or a non-positive total, the card shows 100 × enabled; otherwise the total rounded to the nearest watt; never negative |
| EnergyMetrics.UptimeFieldsExact | Frontend/src/components/EnergyMetrics.tsx:58-61 | minutes and seconds are below 60, and h × 3600 + m × 60 + s equals the seconds |
| EnergyMetrics.Field | Frontend/src/components/EnergyMetrics.tsx:62 | a field is at least two decimal digits whose value is the number: padded, never truncated |
| EnergyMetrics.FieldsRoundTrip | Frontend/src/components/EnergyMetrics.tsx:62 | the text of given hours, minutes and seconds splits into three digit fields of at least two digits with those values, and parses back to h × 3600 + m × 60 + s |
| EnergyMetrics.FormatUptimeRoundTrip | Frontend/src/components/EnergyMetrics.tsx:58-63 | the text is three colon-separated digit fields of at least two digits each, minutes and seconds below 60, and reading it back gives the seconds |
| ApiDebugPanel.StatusColor | Frontend/src/components/ApiDebugPanel.tsx:27-32 | gray exactly for a missing or 0 status, green exactly for 200–299, yellow exactly for 400–499, red exactly for every other status |
| ApiDebugPanel.RecentLogsNewestFirst | Frontend/src/components/ApiDebugPanel.tsx:34 | min(10, \|logs\|) entries; the k-th is the k-th newest log, so the first is the latest |

## Left out

- HTTP calls (`listSensors`, `getSensorSamples`, `getActuatorState`, `setActuatorState`): their results are inputs. `Frontend/src/lib/kvApi` is not part of this model, and neither are the query parameters it is called with (the historical timestamp window).
- Timers and concurrency:
  - the 10-second poll interval, `setTimeout` pauses (modelled as `Pause` steps in a trace), `Promise.all`/`allSettled`, and interleaving of fan-outs across poll ticks;
  - within a batch, results apply in list order;
  - at mount and on every mode switch, `loadData` runs twice: once from the polling effect and once from the mode effect (`Frontend/src/pages/Index.tsx:65` and `591`);
  - the interval's `loadData` closure (`Frontend/src/pages/Index.tsx:64-72`) reads `apiConnected` and `apiError` as they were when the effect last ran, while the model's `Poll` reads the current ones. What that changes depends on the state when the effect last ran:
    - if it ran while disconnected (as at mount), every successful tick re-logs "Connected…" and clears the error, whereas `Reconcile.PollSucceededConnects` describes a poll that sees the current flag, and a failing tick that is not a 502 or 429 never disconnects;
    - if it ran while connected (a mode switch while connected), successful ticks log nothing, and every failing tick that is not a 502 or 429 logs "Lost connection…" again;
    - in both cases the 502 and 429 guards test the error as it was then.
- Demo mode (`generateDemoData`, the demo branch of the command): random data, so `Mode` has only live and historical.
- The actuator-flip and sensor-change effects that log events (`Frontend/src/pages/Index.tsx:82-126`): previous-value refs and a floating-point threshold.
- Floating point: sample values and `convertSensorValue` are on exact reals, and number/date text rendering (`toString`, `toFixed(1)`, `toISOString`) is an opaque parameter. A `toISOString` range error is not modelled.
- EnergyMetrics.ShownPowerCases: the power total is a parameter; the component's floating-point `forEach` sum of sensor readings (×120 for current sensors) is not modelled.
- The uptime counter's `setInterval` (one added per second): a timer, so only `formatUptime` of a given count is modelled.
- Event ids (`Date.now` plus `Math.random`), `apiLogs`/`apiStats` bookkeeping, toasts, `console.log`, the `isRefreshing` flag.
- The Blob download of the export, the JSON export, all rendering, and `AISummary`.
- Text.ToLower: lower-cases ASCII letters only, whereas `toLowerCase` also maps other scripts.
- A JSON `null` actuator state is outside `Bool | Num | Undefined`. So the model does not cover:
  - a listed `null` being kept (`!== undefined`, `Frontend/src/pages/Index.tsx:302`);
  - a stored `null` being replaced by the default (`??`, line 304);
  - `null` being accepted from a detail call or a write answer (`typeof … !== 'undefined'`, lines 327 and 725).
- Reconcile.ToggleValue: the source's `!actuator.state` on a non-boolean state of a BOOLEAN actuator is modelled by JavaScript truthiness of the state (`Truthy`); NaN is not modelled.
