# Medical-gas telemetry monitor: a Dafny model

This project models the logic of a hospital medical-gas monitoring dashboard. It has three parts.

- **The sensor-data hook** (`Telemetry`, telemetry.dfy).
  - Each tick appends one sensor reading to a buffer that keeps the 50 newest readings.
  - It applies a fixed pressure-drop rule: below 450 kPa an alert is raised, and below 400 kPa that alert is critical.
  - A generated alert goes on the front of a list that keeps the 20 newest alerts.
  - The tick also stores the connectivity flag.
  - The KPIs are computed from that state: the distinct node count and mean pressure of the last ten readings, the number of alerts of the last hour, and a two-valued uptime.
- **The actuator control centre** (`ActuatorControl`, actuators.dfy).
  - It holds a list of valves, pumps and fans.
  - The position slider, the Stop button and the Full Open button each update the actuators with a given id.
  - The new status follows from the new position: active when the position is above 0, idle otherwise.
- **The recent-alerts panel** (`AlertPanel`, alert_panel.dfy).
  - It shows at most five alerts, or an all-clear message when there are none.
  - Each row shows the alert type in title case, the node badge, the rationale (with a default text), the prescription line with underscores turned into spaces, and the severity badge.

`Wrappers` (wrappers.dfy) holds the `Option` type.

The hook's state is a class, `Telemetry.SensorData`, whose `Tick` method replaces the three state fields. The actuator list is a class, `ActuatorControl.ActuatorPanel`, whose handler methods replace the list. Everything the source computes with expressions is written as functions: the alert rule, the buffer slices, the KPI block, every panel text and the `map` over the actuator list. The lemmas relate those functions to each other.

Inputs from outside the model:
- Every value the source draws from `Math.random()` is a parameter. A reading arrives whole as the `Tick` argument. The draws an alert consumes come in an `AlertDraws` value: four numbers, each in [0, 1), and an id suffix of up to four base-36 digits. The score (`0.85 + u·0.15`), the z-score (`-2.5 - u·2`), the slope (`-8 - u·10`) and the valve number (`⌊u·10⌋ + 1`) are computed from those draws exactly as the source computes them. The connectivity flag is a parameter of `Tick`.
- Times are integer milliseconds. The current time `now` is a parameter of the KPI functions.
- Pressures and the other sensor values are exact `real`s.

## Model

| member | source | states |
|---|---|---|
| `Telemetry.GenerateAlert` | src/hooks/useSensorData.ts:82-110 | an alert exists exactly when pressure < 450; its severity is critical exactly when pressure < 400, and it is never low or medium; the alert copies the reading's timestamp and hospital/planta/node ids; its type is `pressure_drop_anomaly`, its window is 30 s, its id starts with `ALT-`; its prescription has action `close_valve_partial`, the fixed rationale and one of `VALV-1`..`VALV-10`; the score lies in [0.85, 1), the z-score in (-4.5, -2.5], dP/dt in (-18, -8], and these two are the only features |
| `Telemetry.ValveNumber` | src/hooks/useSensorData.ts:104 | `floor(u*10)+1` of a draw in [0, 1) lies between 1 and 10 |
| `Telemetry.DecimalString` | src/hooks/useSensorData.ts:104 | the template-literal text of a number: at least one character, all decimal digits, no leading zero, one digit exactly below 10 |
| `Telemetry.ValveId` | src/hooks/useSensorData.ts:104 | the prescribed actuator id starts with `VALV-`, continues with decimal digits that read back as the valve number, and has no leading zero for a positive number |
| `Telemetry.DecimalRoundTrip` | src/hooks/useSensorData.ts:104 | reading the printed digits back gives the number |
| `Telemetry.TakeLast` | src/hooks/useSensorData.ts:117 | `slice(-n)` for a positive n is the suffix of length min(n, \|s\|) |
| `Telemetry.TakeFirst` | src/hooks/useSensorData.ts:125 | `slice(0, n)` is the prefix of length min(n, \|s\|) |
| `Telemetry.AppendReading` | src/hooks/useSensorData.ts:115-118 | after a tick the buffer has min(\|old\|+1, 50) readings with the new reading last; below 50 it is old ++ [r]; at 50 the oldest reading is dropped |
| `Telemetry.PushAlert` | src/hooks/useSensorData.ts:123-126 | the new alert is first, the list has min(\|old\|+1, 20) entries, and the survivors are the first entries of the old list in their old order |
| `Telemetry.RecordAlert` | src/hooks/useSensorData.ts:121-127 | with no alert the list is unchanged; with one it is pushed on the front |
| `Telemetry.FeedReadingsKeepsNewest` | src/hooks/useSensorData.ts:112-118 | after any run of ticks the buffer is the last min(50, n) readings in arrival order and never exceeds 50 |
| `Telemetry.FeedAlertsKeepsNewest` | src/hooks/useSensorData.ts:121-127 | after any run of emitted alerts the list is the first 20 of (emitted alerts newest first) ++ old list |
| `Telemetry.Reversed` | src/hooks/useSensorData.ts:123-126 | reversal keeps the length; it gives the newest-first order of the alert list |
| `Telemetry.ReversedAt` | src/hooks/useSensorData.ts:123-126 | position i of the reversal holds the element i places from the end |
| `Telemetry.FeedAlertsOverflow` | src/hooks/useSensorData.ts:123-126 | feeding 25 alerts into an empty list leaves exactly the 20 newest: position i holds the alert emitted i places before the last |
| `Telemetry.RecentReadings` | src/hooks/useSensorData.ts:137-138 | the KPI window is the last min(10, \|readings\|) readings |
| `Telemetry.NodeIds` | src/hooks/useSensorData.ts:137 | the `Set` of node ids holds every reading's node id and nothing else |
| `Telemetry.NodeIdsBound` | src/hooks/useSensorData.ts:137 | a sequence of readings has no more distinct node ids than readings |
| `Telemetry.ActiveNodes` | src/hooks/useSensorData.ts:137 | the distinct-node count lies between 0 and min(10, \|readings\|), and it is 0 exactly for an empty buffer |
| `Telemetry.SumPressureConcat` | src/hooks/useSensorData.ts:138 | the `reduce` sum (`SumPressure`, a left fold from 0) over two consecutive windows is the sum of the two sums |
| `Telemetry.SumPressureBounds` | src/hooks/useSensorData.ts:138 | a sum of pressures that each lie in [lo, hi] lies in [n·lo, n·hi] |
| `Telemetry.MeanWithin` | src/hooks/useSensorData.ts:138 | when every pressure of a non-empty window lies in [lo, hi], so does the mean |
| `Telemetry.MeanBetweenExtremes` | src/hooks/useSensorData.ts:138 | the mean of a non-empty window lies between its least and greatest pressure |
| `Telemetry.AvgPressure` | src/hooks/useSensorData.ts:138 | the mean pressure is 0 for an empty buffer; otherwise it is the window's mean and lies between the window's minimum and maximum |
| `Telemetry.AlertsWithinHour` | src/hooks/useSensorData.ts:139 | the filter keeps an alert exactly when now − ts < 3600000, never grows the list, and keeps the whole list when every alert is recent |
| `Telemetry.IndicesWithinHourStep` | src/hooks/useSensorData.ts:139 | appending an alert adds one recent position exactly when that alert is recent |
| `Telemetry.AlertsWithinHourCounts` | src/hooks/useSensorData.ts:139 | the filter has one entry per recent position, duplicates included |
| `Telemetry.AlertRate` | src/hooks/useSensorData.ts:139 | the alert rate is the number of positions with now − ts < 3600000; it is at most \|alerts\|; it equals \|alerts\| when all are recent and 0 when none is |
| `Telemetry.SystemUptime` | src/hooks/useSensorData.ts:140 | the uptime is 99.8 exactly when connected and 98.5 exactly when disconnected |
| `Telemetry.ComputeKpis` | src/hooks/useSensorData.ts:136-141 | the KPI block: node count ≤ min(10, \|readings\|), alert rate ≤ \|alerts\|, node count 0 and mean 0 for an empty buffer, uptime from the flag |
| `Telemetry.SensorData.constructor` | src/hooks/useSensorData.ts:43-45 | the hook starts with no readings, no alerts and connected |
| `Telemetry.SensorData.Tick` | src/hooks/useSensorData.ts:112-131 | one interval tick: readings become AppendReading(old, r); alerts become RecordAlert(old, GenerateAlert(r)); isConnected becomes the injected flag; the 50/20 bounds are kept |
| `Telemetry.SensorData.Kpis` | src/hooks/useSensorData.ts:136-141 | the hook's KPIs over its current state: at most 10 active nodes and at most 20 recent alerts |
| `Telemetry.PressureDropScenario` | src/hooks/useSensorData.ts:112-141 | readings of node N1 at 480, 478 and 395 kPa give a buffer of the three readings and one critical alert prescribing `close_valve_partial`; the KPIs are 1 active node, 1 recent alert and a mean of 451 |
| `ActuatorControl.MockActuators` | src/components/ActuatorControl.tsx:17-22 | the panel starts with four actuators, each with the status the handlers' rule gives its position |
| `ActuatorControl.StatusFor` | src/components/ActuatorControl.tsx:31 | the status is active exactly when the position is above 0, and never error |
| `ActuatorControl.PositionChanged` | src/components/ActuatorControl.tsx:27-35 | a position change keeps the length, the order and every id/name/type/location; each actuator with the target id gets the position, and it is active exactly when the position is above 0; every other actuator is unchanged |
| `ActuatorControl.EmergencyStopped` | src/components/ActuatorControl.tsx:37-45 | an emergency stop keeps the length, the order and every identity field; each target gets position 0 and status idle; every other actuator is unchanged |
| `ActuatorControl.EmergencyStopIsPositionZero` | src/components/ActuatorControl.tsx:37-45 | an emergency stop gives the same list as a position change to 0 |
| `ActuatorControl.EmergencyStopIdempotent` | src/components/ActuatorControl.tsx:37-45 | stopping twice gives the same list as stopping once |
| `ActuatorControl.PositionChangeIdempotent` | src/components/ActuatorControl.tsx:27-35 | setting the same position twice gives the same list as setting it once |
| `ActuatorControl.FullOpenClearsError` | src/components/ActuatorControl.tsx:114 | after Full Open the target has position 100 and status active, whatever its earlier status, error included |
| `ActuatorControl.UnknownIdChangesNothing` | src/components/ActuatorControl.tsx:27-45 | an id that is not in the list leaves the list unchanged under both handlers |
| `ActuatorControl.PositionsStayInRange` | src/components/ActuatorControl.tsx:92-98 | slider values within 0..100 keep every position within 0..100 under both handlers |
| `ActuatorControl.MockActuatorsWellFormed` | src/components/ActuatorControl.tsx:17-22 | the initial actuators have distinct ids and positions within 0..100 |
| `ActuatorControl.PrescribedValvesNotOnPanel` | src/components/ActuatorControl.tsx:17-22 | no prescribed id `VALV-1`..`VALV-10` names an actuator on the panel, whose ids are `VALV-01`, `VALV-02`, `PUMP-01` and `FAN-01` |
| `ActuatorControl.ActuatorPanel.constructor` | src/components/ActuatorControl.tsx:25 | the panel starts from the initial actuators |
| `ActuatorControl.ActuatorPanel.HandlePositionChange` | src/components/ActuatorControl.tsx:27-35 | the list becomes PositionChanged(old, id, newPosition[0]), and stays within range when the value is within 0..100 |
| `ActuatorControl.ActuatorPanel.HandleEmergencyStop` | src/components/ActuatorControl.tsx:37-45 | the list becomes EmergencyStopped(old, id), which equals a position change to 0, and stays within range |
| `ActuatorControl.ActuatorPanel.FullOpen` | src/components/ActuatorControl.tsx:114 | the list becomes a position change to 100, and every target then has position 100 and status active |
| `AlertPanel.SeverityConfig` | src/components/AlertPanel.tsx:10-15 | medium and high share the warning colour and no other severity has it; critical alone has the critical colour; low alone has the info colour |
| `AlertPanel.SeverityLabelIsTitleCasedName` | src/components/AlertPanel.tsx:10-15 | each badge label is its severity's name with the first letter capitalised |
| `AlertPanel.SeverityLabelsDistinct` | src/components/AlertPanel.tsx:10-15 | different severities get different labels |
| `AlertPanel.ToUpper` | src/components/AlertPanel.tsx:48 | upper-casing maps a-z to A-Z, leaves every other character alone and keeps word characters word characters |
| `AlertPanel.ReplaceUnderscores` | src/components/AlertPanel.tsx:48 | the replacement keeps the length, turns each `_` into a space, keeps every other character, and leaves no `_` |
| `AlertPanel.TitleCase` | src/components/AlertPanel.tsx:48 | upper-casing the word starts keeps the length; `TitleCaseScanIsTitleCase` proves it is the regex replacement |
| `AlertPanel.TitleCaseScan` | src/components/AlertPanel.tsx:48 | the left-to-right `\b\w` replacement keeps the length |
| `AlertPanel.TitleCaseScanAt` | src/components/AlertPanel.tsx:48 | the regex scan keeps the length; it upper-cases the character at i exactly when that character is a word character and the one before it is not |
| `AlertPanel.TitleCaseScanIsTitleCase` | src/components/AlertPanel.tsx:48 | the regex scan from the start of the string equals TitleCase: it upper-cases exactly the word characters at index 0 or after a non-word character, and leaves everything else unchanged |
| `AlertPanel.TitleCaseIdempotent` | src/components/AlertPanel.tsx:48 | title-casing twice is title-casing once |
| `AlertPanel.TypeLabel` | src/components/AlertPanel.tsx:48 | the type label keeps the length and contains no `_` |
| `AlertPanel.TypeLabelIsRegexReplace` | src/components/AlertPanel.tsx:48 | the type label is the `_` replacement followed by the `\b\w` scan |
| `AlertPanel.ReplaceUnderscoresNoop` | src/components/AlertPanel.tsx:48 | a string without `_` is left unchanged by the replacement |
| `AlertPanel.TypeLabelIdempotent` | src/components/AlertPanel.tsx:48 | formatting a type label twice is formatting it once |
| `AlertPanel.PressureDropTypeLabel` | src/components/AlertPanel.tsx:48 | `pressure_drop_anomaly` is shown as `Pressure Drop Anomaly` |
| `AlertPanel.ActionLabel` | src/components/AlertPanel.tsx:59 | the action label keeps the length and turns each `_` into a space |
| `AlertPanel.PrescribedActionLabel` | src/components/AlertPanel.tsx:59 | `close_valve_partial` is shown as `close valve partial` |
| `AlertPanel.RationaleText` | src/components/AlertPanel.tsx:55 | the rationale is the prescription's own when present and non-empty, and `Anomaly detected in sensor data` otherwise (an empty string included); it is never empty |
| `AlertPanel.ShownAlerts` | src/components/AlertPanel.tsx:33 | the shown alerts are exactly the first min(5, \|alerts\|), in order |
| `AlertPanel.RenderRow` | src/components/AlertPanel.tsx:34-70 | a row is keyed by the alert id and shows its node and timestamp; its type label is `TypeLabel` of the alert type and its rationale is `RationaleText` of the prescription; it has a prescription line exactly when the alert has a prescription, with the same actuator id and `ActionLabel` of the action; its badge is `SeverityConfig` of the severity, labelled with the title-cased severity name |
| `AlertPanel.Render` | src/components/AlertPanel.tsx:27-33 | the panel shows the all-clear message exactly when there are no alerts; otherwise it shows min(5, \|alerts\|) ≤ 5 rows, row i being alert i's row |
| `AlertPanel.GeneratedAlertRow` | src/components/AlertPanel.tsx:48-60 | a generated alert's row reads `Pressure Drop Anomaly`, shows the fixed rationale and the prescription `close valve partial`, shows the reading's node, and has a `Critical` badge exactly when pressure < 400 |

## Left out

- `generateReading` and every `Math.random()` value (src/hooks/useSensorData.ts:49-79, 85, 95-104, 130). These are random. Readings, draws and the connectivity flag are parameters instead. The model takes the id suffix to be any string of at most four base-36 digits; it does not model the text that `Number.prototype.toString(36)` produces.
- `useEffect`, `setInterval`, `clearInterval` and React's state hooks. This is timer and framework plumbing. One `Tick` call is one run of the interval callback. The three state updates of a tick happen together.
- `Date.now()`, `new Date().toISOString()` and timestamp parsing. These depend on the clock and the locale. Timestamps are integer milliseconds and `now` is a parameter. As in the source, an alert whose timestamp is later than `now` counts as recent.
- IEEE floating point, `toFixed` and `toLocaleTimeString`. Values are exact reals. A panel row carries the raw timestamp instead of the formatted time.
- src/components/KPIDashboard.tsx, src/components/SensorChart.tsx and src/pages/Index.tsx are not part of this model. They are presentation only.
- `getStatusColor` and the CSS classes. They are styling only. The severity colours and icons are kept, as enumerations, only because the badge mapping is modelled.
- Per-node windows, z-score computation, rate-of-change detection, trends and uptime history. The code has none of these. The evidence features are random numbers.
- `ActuatorControl.ActuatorPanel.HandlePositionChange`: requires a non-empty `newPosition`. The source reads `newPosition[0]` without a check. An empty array would store `undefined` as the position; that case is not modelled, and the slider and Full Open never pass one.
- `ActuatorControl.Actuator.position`: an integer. The slider moves in steps of 5 between 0 and 100, so fractional positions are not modelled.
- `Telemetry.TakeLast`: requires a positive count. `slice(-0)` would return the whole array, but the source only slices with -50 and -10.
