# WiFi heatmap core, modelled in Dafny

WifiHeatmap is a React Native app for surveying WiFi coverage. The user places
a marker on a floor plan and samples signal strength there, optionally refined
by 802.11mc round-trip-time ranging on Android. The heatmap screen mounts
`SkiaHeatmap` in its 2D view, which draws one disc per sample coloured by
`getColor`, and `Heatmap3D` in its 3D view. The repository also has a
`FloorPlanHeatmap` component that no screen imports. It cuts the plan into
10 x 10-unit cells and paints each cell by inverse-distance-weighted
interpolation at the cell centre. This project
models the deterministic core of that app as pure Dafny functions over `real`,
`seq`, `set` and `map`, and proves what the code promises about it.

| module (file) | what it models |
|---|---|
| `HeatmapTypes` (types.dfy), `Wrappers` (wrappers.dfy), `Sums` (sums.dfy) | the sample records of `src/types/heatmap.ts`; `Option`/`Result`; a left-fold sum and its permutation invariance |
| `HeatmapUtils` (heatmap_utils.dfy) | `interpolateSignalStrength`, `smoothPosition`, `getColorForSignalStrength` |
| `Colors` (colors.dfy) | the three-band `getSignalStrengthColor` |
| `FloorPlanHeatmap` (floor_plan_heatmap.dfy) | the press gate and the cell loop of `renderHeatmap` |
| `WifiSignalIndicator` (wifi_signal_indicator.dfy) | `getSignalQuality`, `getActiveArcs`, the arc strokes |
| `SkiaHeatmap` (skia_heatmap.dfy) | `getColor` and `handlePress` |
| `WifiRttModule` (wifi_rtt_module.dfy) | `calculateSignalQuality`, the AP selection of `startMultipleRanging`, the `STATUS_SUCCESS` result filter |
| `BestReading` (best_reading.dfy) | the reading chosen by `handleAddDataPoint` |
| `FloorNames` (floor_names.dfy) | `String.prototype.trim` as `addNewFloor` uses it; the `Floor <n>` names |
| `HeatmapScreen` (heatmap_screen.dfy) | the screen's state hooks as one record, each handler as a transition, and the invariants over any run of events |

Modelling choices:

- Numbers are exact reals. Kotlin `Int` values are unbounded integers, except in
  the one place where 32-bit wrap-around changes a result (see Findings).
- `Math.sqrt` is a parameter `sqrt: real -> real`. Every member that uses it
  requires `IsSqrt(sqrt)`: the result is non-negative and squares back to its
  argument.
- Awaited platform calls are inputs to the model: the scanned networks, the
  ranging reports, the device's API level, its RTT manager and location
  permission, and the scan-result read as a `Result`.
- A new floor is 800 x 600 plan units. The interpolation's radius of influence
  is a fixed 50 plan units.

## Model

| member | source | states |
|---|---|---|
| `Colors.SignalStrengthColor` | src/theme/colors.ts:18-24 | always one of the three band colours; green iff s > -51, blue iff -72 < s <= -51, red iff s <= -72 (no clamping below -100) |
| `Colors.SignalStrengthColorMonotone` | src/theme/colors.ts:21-23 | a stronger signal never gets a weaker band (red < blue < green) |
| `HeatmapUtils.InRangeIffSquared` | src/utils/HeatmapUtils.ts:14-22 | a sample is in range iff its squared distance is at most 2500, inclusive at exactly 50 |
| `HeatmapUtils.Weight` | src/utils/HeatmapUtils.ts:23 | a weight lies in (0, 1] and is 1 exactly at distance 0 |
| `HeatmapUtils.WeightStrictlyDecreasing` | src/utils/HeatmapUtils.ts:23 | a farther sample weighs strictly less |
| `HeatmapUtils.TotalWeightPositive` | src/utils/HeatmapUtils.ts:15-29 | the total weight is non-negative, and positive iff some sample is within 50 of the query |
| `HeatmapUtils.Interpolate` | src/utils/HeatmapUtils.ts:9-30 | the result is null iff no sample is within range |
| `HeatmapUtils.InterpolateEmpty` | src/utils/HeatmapUtils.ts:15-29 | an empty sample list gives null at every query point |
| `HeatmapUtils.AccumulateWeights` | src/utils/HeatmapUtils.ts:15-27 | the forEach loop accumulates exactly the sums of the in-range weights and weighted strengths |
| `HeatmapUtils.InterpolateSignalStrength` | src/utils/HeatmapUtils.ts:9-30 | the loop-based function returns the interpolation, so null iff nothing is in range |
| `HeatmapUtils.InterpolateSingleInRange` | src/utils/HeatmapUtils.ts:23-29 | with exactly one sample in range, the result is that sample's strength at any distance |
| `HeatmapUtils.WeightedSumBounded` | src/utils/HeatmapUtils.ts:24-25 | bounds on the in-range strengths carry over to the weighted sum, scaled by the total weight |
| `HeatmapUtils.InterpolateBounded` | src/utils/HeatmapUtils.ts:24-29 | a non-null result lies between any lower and upper bound of the in-range strengths (convex combination) |
| `HeatmapUtils.InterpolatePermutation` | src/utils/HeatmapUtils.ts:18-27 | reordering the samples does not change the result |
| `HeatmapUtils.SmoothPosition` | src/utils/HeatmapUtils.ts:32-41 | factor 0 keeps the old position and factor 1 jumps to the new one; equal positions are fixed; for a factor in [0, 1] each coordinate lies between old and new |
| `HeatmapUtils.SmoothPositionDefault` | src/utils/HeatmapUtils.ts:35-40 | with the default 0.2, each coordinate moves strictly towards a different target without reaching it |
| `HeatmapUtils.SmoothRepeatedlyNoOvershoot` | src/utils/HeatmapUtils.ts:32-41 | repeated smoothing towards a fixed target never overshoots it, and in each coordinate each step ends between the previous position and the target |
| `HeatmapUtils.ColorForSignalStrength` | src/utils/HeatmapUtils.ts:43-45 | a cell's colour follows the same three bands as the theme: green iff s > -51, blue iff -72 < s <= -51, red iff s <= -72 |
| `FloorPlanHeatmap.HandlePress` | src/components/FloorPlanHeatmap.tsx:27-32 | a press is forwarded, unchanged, iff marking mode is on |
| `FloorPlanHeatmap.CellCount` | src/components/FloorPlanHeatmap.tsx:37-39 | the number of whole 10-unit cells that fit, with any partial strip at the high edge left uncovered |
| `FloorPlanHeatmap.CoveredIffSampleInRange` | src/components/FloorPlanHeatmap.tsx:44-48 | a cell is covered iff some sample is within range of its centre ((col+0.5)*10, (row+0.5)*10) |
| `FloorPlanHeatmap.CellAt` | src/components/FloorPlanHeatmap.tsx:46-60 | a cell is produced iff its centre is covered; it is the 10 x 10 square at (col*10, row*10), coloured by the centre strength, opacity 0.7 |
| `FloorPlanHeatmap.RenderRow` | src/components/FloorPlanHeatmap.tsx:43-62 | one row yields well-formed cells of that row, left to right, one for each covered column and at most one per column |
| `FloorPlanHeatmap.RenderHeatmap` | src/components/FloorPlanHeatmap.tsx:34-73 | no samples gives nothing; otherwise the cells are in row-major order (so keys are distinct), lie inside the plan, number at most columns x rows, and exist exactly for the covered grid cells; there is one dot of radius 3 per sample at its position |
| `FloorPlanHeatmap.CellColourFromSamples` | src/components/FloorPlanHeatmap.tsx:46-49 | a cell whose in-range samples all read above -51 dBm is green; one whose in-range samples all read at or below -72 dBm is red |
| `WifiSignalIndicator.SignalQuality` | src/components/WifiSignalIndicator.tsx:20-25 | the quality lies in [0, 100]: 100 from -50 dBm up, 0 from -100 dBm down, and the three pieces form one clamped linear ramp |
| `WifiSignalIndicator.SignalQualityMonotone` | src/components/WifiSignalIndicator.tsx:22-24 | quality never decreases as the signal grows |
| `WifiSignalIndicator.ActiveArcs` | src/components/WifiSignalIndicator.tsx:30-35 | 0 to 3 arcs; 3 iff quality >= 75, at least 2 iff >= 40, at least 1 iff >= 15 |
| `WifiSignalIndicator.ArcsForSignal` | src/components/WifiSignalIndicator.tsx:20-37 | in dBm: 3 arcs iff >= -62.5, at least 2 iff >= -80, at least 1 iff >= -92.5 |
| `WifiSignalIndicator.ArcStrokes` | src/components/WifiSignalIndicator.tsx:50-75 | arc k+1 is drawn in the active colour iff more than k arcs are active |
| `WifiSignalIndicator.ArcStrokesMatchCount` | src/components/WifiSignalIndicator.tsx:50-75 | exactly as many arcs are highlighted as are active, always the innermost ones |
| `SkiaHeatmap.Normalize` | src/components/SkiaHeatmap.tsx:34 | the normalised strength lies in [0, 1]: 0 at -100 dBm and below, 1 at -30 dBm and above, linear between |
| `SkiaHeatmap.GetColor` | src/components/SkiaHeatmap.tsx:32-42 | g is 255 n and r is 255 (1 - n), both rounded down, for the normalised strength n; both lie in [0, 255] and b is 0; -100 dBm and below is pure red, -30 dBm and above pure green; r + g is 254 or 255; alpha is 0.7 |
| `SkiaHeatmap.GetColorMonotone` | src/components/SkiaHeatmap.tsx:34-38 | a stronger sample is never redder and never less green |
| `WifiRttModule.Clamp01` | android/app/src/main/java/com/wifiheatmap/WifiRttModule.kt:268 | `coerceIn(0.0, 1.0)` lies in [0, 1] and is the identity inside it |
| `WifiRttModule.RssiTerm` | android/app/src/main/java/com/wifiheatmap/WifiRttModule.kt:267-268 | the RSSI part lies in [0, 0.7]: 0 at -100 dBm and below, 0.7 at -30 dBm and above, and (rssi + 100) / 100 in between |
| `WifiRttModule.DistanceTerm` | android/app/src/main/java/com/wifiheatmap/WifiRttModule.kt:271-272 | the distance part lies in [0, 0.3]: the full 0.3 at distances <= 0, 0 at 50 m and beyond, and falling linearly as 0.3 (1 - distanceMm / 50000) in between |
| `WifiRttModule.CalculateSignalQuality` | android/app/src/main/java/com/wifiheatmap/WifiRttModule.kt:261-276 | the score lies in [0, 1], as the doc comment promises; it is the RSSI part plus the distance part; it is 1 when rssi >= -30 and distance <= 0, and 0 when rssi <= -100 and distance >= 50000 mm |
| `WifiRttModule.SignalQualityMonotone` | android/app/src/main/java/com/wifiheatmap/WifiRttModule.kt:265-276 | the score never falls as rssi grows or as the distance shrinks |
| `WifiRttModule.WrapInt32` | android/app/src/main/java/com/wifiheatmap/WifiRttModule.kt:267 | the Kotlin `Int` result lies in the 32-bit range, is congruent to the exact sum modulo 2^32, and equals it when it fits |
| `WifiRttModule.CalculateSignalQualityAsWritten` | android/app/src/main/java/com/wifiheatmap/WifiRttModule.kt:265-276 | with 32-bit `rssi + 100` the score still lies in [0, 1] and agrees with the exact score whenever the sum does not overflow |
| `WifiRttModule.AsWrittenOverflowCounterexample` | android/app/src/main/java/com/wifiheatmap/WifiRttModule.kt:267 | at 0 mm, rssi -30 scores 1.0 but rssi `Int.MAX_VALUE` scores 0.3 |
| `WifiRttModule.Rangeable` | android/app/src/main/java/com/wifiheatmap/WifiRttModule.kt:217-218 | an AP survives the filter iff the API level is below M or it is an 802.11mc responder |
| `WifiRttModule.RangeableConcat` | android/app/src/main/java/com/wifiheatmap/WifiRttModule.kt:217-218 | the filter keeps scan order: filtering a concatenation concatenates the filtered parts |
| `WifiRttModule.SelectRangingTargets` | android/app/src/main/java/com/wifiheatmap/WifiRttModule.kt:206-231 | checks run in order: RTT_UNSUPPORTED below P or without a manager, then PERMISSION_DENIED, then SCAN_ERROR, then NO_RTT_APS iff nothing passes the filter; the call succeeds iff every guard passes and some AP passes the filter; on success, 1 to 10 APs forming a prefix of the filtered scan, either 10 of them or all of it |
| `WifiRttModule.SelectedAreResponders` | android/app/src/main/java/com/wifiheatmap/WifiRttModule.kt:207-218 | every selected AP is an 802.11mc responder, because the pre-M branch of the filter is unreachable after the P check |
| `WifiRttModule.Report` | android/app/src/main/java/com/wifiheatmap/WifiRttModule.kt:245-252 | every pushed map carries a quality in [0, 1] |
| `WifiRttModule.SuccessfulReports` | android/app/src/main/java/com/wifiheatmap/WifiRttModule.kt:241-256 | a report appears iff it comes from a result with `STATUS_SUCCESS` |
| `WifiRttModule.SuccessfulReportsConcat` | android/app/src/main/java/com/wifiheatmap/WifiRttModule.kt:243-255 | dropping failed results keeps callback order |
| `WifiRttModule.OnRangingResults` | android/app/src/main/java/com/wifiheatmap/WifiRttModule.kt:241-257 | the loop pushes exactly the reports of the successful results, in callback order |
| `WifiRttModule.RangingOutcome` | android/app/src/main/java/com/wifiheatmap/WifiRttModule.kt:237-258 | the promise rejects with RTT_ERROR and the code iff the failure callback fires; otherwise it resolves with the reports of exactly the STATUS_SUCCESS results, in callback order (the array `OnRangingResults` pushes), each with a quality in [0, 1] |
| `BestReading.FirstMaxUnique` | src/screens/HeatmapScreen.tsx:247-251 | at most one position is the first maximum, so the reduction's choice is determined |
| `BestReading.ReduceBest` | src/screens/HeatmapScreen.tsx:247-251 | the strict `>` reduction over a prefix ends on a maximal element with no equal-or-better element before it |
| `BestReading.FirstMax` | src/screens/HeatmapScreen.tsx:263-265 | the reduction over a whole non-empty list returns its first maximum |
| `BestReading.RangingReading` | src/screens/HeatmapScreen.tsx:236-256 | with a responder in the scan and non-empty ranging, the first result of maximal quality supplies rssi, distanceMm / 1000 and quality; otherwise -100, no distance, quality 0 |
| `BestReading.SelectReading` | src/screens/HeatmapScreen.tsx:238-268 | distance and quality come from ranging; a strength still at -100 is replaced by the level of the first network of maximal level |
| `BestReading.FallbackIsStrongest` | src/screens/HeatmapScreen.tsx:262-268 | without usable ranging the strength is the highest scanned level, with no distance and quality 0 |
| `BestReading.RangedQualityIsMaximal` | src/screens/HeatmapScreen.tsx:242-256 | a ranged reading has a distance and a quality no result exceeds |
| `FloorNames.TrimStart` | src/screens/HeatmapScreen.tsx:294 | the result is the suffix starting at the first non-whitespace character |
| `FloorNames.TrimEnd` | src/screens/HeatmapScreen.tsx:294 | the result is the prefix ending at the last non-whitespace character |
| `FloorNames.TrimEmptyIffBlank` | src/screens/HeatmapScreen.tsx:294 | a name trims to "" iff every character is JavaScript whitespace |
| `FloorNames.DecimalString` | src/screens/HeatmapScreen.tsx:307 | a template literal renders n as non-empty decimal digits with no leading zero, more than one digit iff n >= 10 |
| `FloorNames.DecimalRoundTrip` | src/screens/HeatmapScreen.tsx:307 | parsing the rendered digits gives n back |
| `FloorNames.FloorNameInjective` | src/screens/HeatmapScreen.tsx:307 | `Floor <a>` and `Floor <b>` are equal iff a = b |
| `FloorNames.BlankFloorNameCollision` | src/screens/HeatmapScreen.tsx:307-308 | with the single floor "Floor 2", the as-written name is "Floor 2" and the number of floors stays 1 |
| `FloorNames.FirstFreeFrom` | src/screens/HeatmapScreen.tsx:307 | the first `Floor <m>` with m >= k that is not taken; every name between is taken |
| `FloorNames.BlankFloorName` | src/screens/HeatmapScreen.tsx:306-314 | the corrected name is never taken, and is the source's name whenever that is free |
| `FloorNames.BlankFloorNameGrows` | src/screens/HeatmapScreen.tsx:306-314 | with the corrected name the number of floors grows by one |
| `HeatmapScreen.ShowError` | src/screens/HeatmapScreen.tsx:205-208 | the dialog shows the message and nothing else changes |
| `HeatmapScreen.StartCapturing` | src/screens/HeatmapScreen.tsx:167-176 | without a marker only the error dialog changes, so capture state and the session list stay the same; with a marker capturing starts and the session list is emptied, and nothing else changes |
| `HeatmapScreen.StopCapturing` | src/screens/HeatmapScreen.tsx:178-184 | capturing stops; the session list, the status and all other state are kept |
| `HeatmapScreen.ToHeatmapPoints` | src/screens/HeatmapScreen.tsx:192-200 | one converted sample per input sample, in order |
| `HeatmapScreen.UpdateHeatmap` | src/screens/HeatmapScreen.tsx:186-203 | the current floor's list gets the new samples appended in order, and is created if absent; every other floor's list and all other state are unchanged |
| `HeatmapScreen.FloorDataAsWritten` | src/screens/HeatmapScreen.tsx:325 | as the source evaluates it, the lookup fails exactly when the floor has no own entry and is named after an `Object.prototype` member; otherwise it gives the own-key list, empty when there is none |
| `HeatmapScreen.UpdateHeatmapAsWritten` | src/screens/HeatmapScreen.tsx:186-203 | as the source evaluates it, `push` throws exactly when the current floor has no own list, is named after an `Object.prototype` member, and there is a sample to append; otherwise it agrees with `UpdateHeatmap` |
| `HeatmapScreen.PrototypeFloorNameBreaksFloor` | src/screens/HeatmapScreen.tsx:293-304 | the floor dialog accepts the name "constructor" and makes it current, after which reading and appending its samples both fail |
| `HeatmapScreen.AddedFloorTakesSamples` | src/screens/HeatmapScreen.tsx:186-203 | every name the floor dialog accepts becomes the current floor, and recording samples appends them to that floor's own list |
| `HeatmapScreen.HandleFloorPlanPress` | src/screens/HeatmapScreen.tsx:210-219 | outside marking mode nothing changes; in marking mode the marker moves to the tap, marking mode ends, and a known fix becomes the initial and last-updated position |
| `HeatmapScreen.CanvasTapPlacesMarker` | src/screens/HeatmapScreen.tsx:339-350 | in marking mode a tap on the 2D canvas places the marker exactly where it landed |
| `HeatmapScreen.HandleAddDataPoint` | src/screens/HeatmapScreen.tsx:221-234 | nothing happens unless capturing with a marker; an empty scan only sets "No networks found"; floor samples, the session list and the status are the only state it changes |
| `HeatmapScreen.AddDataPointRecordsSample` | src/screens/HeatmapScreen.tsx:270-285 | a non-empty scan appends one sample at the marker, carrying the selected reading and the timestamp, to the session list and to the current floor, and shows the reading |
| `HeatmapScreen.AddNewFloor` | src/screens/HeatmapScreen.tsx:293-304 | an all-whitespace name changes nothing; any other name is registered untrimmed as a blank 800 x 600 floor, made current, and the dialog is reset |
| `HeatmapScreen.RegisterBlank` | src/screens/HeatmapScreen.tsx:295-300 | the name is added to the floors, or overwritten when taken, as "blank" at 800 x 600 and becomes the current floor; every other floor keeps its plan and size |
| `HeatmapScreen.CreateBlankFloorPlanAsWritten` | src/screens/HeatmapScreen.tsx:306-314 | as written, the floor `Floor <count + 1>` is registered as blank and selected whether or not that name is taken; nothing outside the floors changes |
| `HeatmapScreen.CreateBlankFloorPlanAsWrittenCollides` | src/screens/HeatmapScreen.tsx:306-314 | as written, with a user floor "Floor 2" the button adds no floor |
| `HeatmapScreen.CreateBlankFloorPlan` | src/screens/HeatmapScreen.tsx:306-314 | corrected: the new floor's name was free, the number of floors grows by one, it becomes current, and it matches the source's name whenever that is free |
| `HeatmapScreen.Apply` | src/screens/HeatmapScreen.tsx:366-476 | only recording a sample changes the samples; no event removes a floor; "Create Blank" always adds one; capturing never starts without a marker; "Place Marker" does nothing while capturing and enters marking mode otherwise; the capture state changes only through the capture button and a recorded sample |
| `HeatmapScreen.InitialValid` | src/screens/HeatmapScreen.tsx:81-99 | the initial state is valid |
| `HeatmapScreen.RegisterBlankValid` | src/screens/HeatmapScreen.tsx:295-299 | registering a floor keeps plans and sizes on the same keys, every size 800 x 600 and every plan blank |
| `HeatmapScreen.ApplyPreservesValid` | src/screens/HeatmapScreen.tsx:167-314 | every handler keeps the state valid: floors consistent, and capturing only with a placed marker |
| `HeatmapScreen.RunPreservesValid` | src/screens/HeatmapScreen.tsx:366-476 | any sequence of user actions and platform callbacks keeps the state valid |
| `HeatmapScreen.CurrentDimensionsAlwaysCanvas` | src/screens/HeatmapScreen.tsx:320-323 | in every reachable state the current floor is drawn at 800 x 600 |
| `HeatmapScreen.ApplyAppendOnly` | src/screens/HeatmapScreen.tsx:186-203 | no handler removes, reorders or rewrites a floor's samples |
| `HeatmapScreen.RunAppendOnly` | src/screens/HeatmapScreen.tsx:186-203 | over any run of events every floor's sample list only grows at the end |

## Left out

- Platform I/O is not modelled: the scan broadcast receiver, `scanWifiNetworks`, permission requests, the RTT manager calls, `WifiService`, `LocationService`. Their results are inputs.
- `isRttAvailable` and the single-AP `startRanging(bssid)` (WifiRttModule.kt:41-48, 148-203) are left out. The screen never calls them on the path that records samples. `startRanging` shares the result filter that is modelled.
- Timers and async plumbing are not modelled: the auto-update interval and its switch, the mount and unmount effects, `isMounted`, stale closures. `handleAddDataPoint` is one atomic step over the state at the time of the press.
- The intermediate "Scanning..." status and the `catch` branch ("Scan failed") of `handleAddDataPoint` are left out. Scan and ranging failures are already turned into empty lists by the wrappers, so nothing in the modelled computation throws.
- `updateHeatmap` mutates, in place, an array shared with the previous state object. The model treats state as values. The resulting list contents are the same.
- Status and list text (`toFixed`, the `Signal: ... dBm` string) is not modelled. `ScanStatus` carries the values, not the text.
- `WifiRttModule.SelectRangingTargets`: rejections carry the error code and, for a scan failure, the exception message. The human-readable rejection texts are left out.
- IEEE-754 rounding is left out. All arithmetic is exact real arithmetic, so single-sample pass-through and order independence hold over the reals, not over doubles.
- `toggleViewMode` and the 3D view (`Heatmap3D`) are left out: a Three.js scene in a WebView.
- The per-sample discs and marker of `SkiaHeatmap`, and the zoomable view of `FloorPlanHeatmap`, are drawing only. Just their colours and press handling are modelled.
- `SignalStrengthMeter`, settings persistence, theming, navigation and the other screens are left out. They are UI outside the core.
- HeatmapScreen.Apply: the "Create Blank" event runs the corrected `CreateBlankFloorPlan`, not the code as written (see Findings). When `Floor <count + 1>` is already taken, the source re-selects that floor, while the model adds the next free `Floor <m>`. `CreateBlankFloorPlanAsWritten` models the code as written.
- HeatmapScreen.UpdateHeatmap: the sample records are keyed maps with own-key lookup, not plain JavaScript objects. A floor named after an `Object.prototype` member such as `constructor` makes the source throw, while the model records its samples. `FloorDataAsWritten` and `UpdateHeatmapAsWritten` model the code as written (see Findings).
- Dead reckoning is not modelled because there is no code for it. `sensitivity` is read but never used, and the screen never calls `smoothPosition`.

## Findings

| source | as written | input that shows it | evidently intended | confidence | as-written member | corrected member |
|---|---|---|---|---|---|---|
| android/app/src/main/java/com/wifiheatmap/WifiRttModule.kt:267 | `rssi + 100` is a 32-bit `Int` addition, done before the conversion to `Double` | rssi = 2147483647 (`Int.MAX_VALUE`), distanceMm = 0: the sum wraps to -2147483549 and the score is 0.3, while rssi = -30 scores 1.0 | an RSSI at or above -30 dBm always gets the full RSSI term, so the score is monotone in rssi; real radios never report such values, so the impact is low | not executed | `WifiRttModule.CalculateSignalQualityAsWritten`, `WifiRttModule.AsWrittenOverflowCounterexample` | `WifiRttModule.CalculateSignalQuality`, `WifiRttModule.SignalQualityMonotone` |
| src/screens/HeatmapScreen.tsx:307 | the blank floor is named `Floor ${count + 1}` without checking that the name is free | floorPlans = {"Floor 2": "blank"} (named by the user through "Add Floor"): "Create Blank" yields "Floor 2", re-selects that floor and the count stays 1, so every later press does the same | "Create Blank" always adds a new floor | not executed | `HeatmapScreen.CreateBlankFloorPlanAsWritten`, `HeatmapScreen.CreateBlankFloorPlanAsWrittenCollides` | `HeatmapScreen.CreateBlankFloorPlan`, `FloorNames.BlankFloorNameGrows` |
| src/screens/HeatmapScreen.tsx:325 | `floorPlanWifiData[currentFloor] \|\| []` and `!updatedData[currentFloor]` (lines 189-193) index a plain object, so a floor name with no own entry that names an `Object.prototype` member finds the inherited member, which is truthy and not an array | "Add Floor" with the name "constructor": the current floor's data is the `Object` function, so `data.map` in `SkiaHeatmap` throws on render, and "Add Data Point" throws at `push` | every floor name the dialog accepts starts with an empty sample list of its own | not executed | `HeatmapScreen.UpdateHeatmapAsWritten`, `HeatmapScreen.PrototypeFloorNameBreaksFloor` | `HeatmapScreen.UpdateHeatmap`, `HeatmapScreen.AddedFloorTakesSamples` |

The session model (`HeatmapScreen.Apply`) uses the corrected `CreateBlankFloorPlan` and the own-key `UpdateHeatmap`. It uses the
exact-integer `CalculateSignalQuality`.
