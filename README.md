# Route nutrition planner — verified model of its bookkeeping core

The application loads a GPX route, turns its track points into a cumulative-distance /
elevation profile, lets the athlete click waypoints on that profile, attach foods from a
fixed nutrition catalogue to each waypoint, and shows the total carbohydrate, calories and
protein planned together with hourly rates for a planned duration, plus an estimated arrival
time (HH:MM:SS) at each waypoint.

All of this lives in one browser script (`script.js`) whose state is two global arrays —
`elevationData` (the profile) and `points` (the waypoints, which are references to profile
entries) — and a `foods` list stored on the profile entries themselves. The model keeps
that shape:

- `Track` (track.dfy): samples and profile entries, `BuildProfile` (what `parseGPX` builds),
  its shape and monotonicity, and `MaxDistance` (the `d3.max` that `getTimeEstimate` uses).
  The haversine distance is a parameter `hav`.
- `Catalogue` (catalogue.dfy): the seven entries of `nutritionData` and lookup by name.
- `Waypoints` (waypoints.dfy): waypoints as indices into the profile, nearest-entry snapping
  (the `reduce` of `addPoint`), push-then-stable-sort, removal by distance and `find` by distance.
- `Ledger` (ledger.dfy): the per-entry food lists, removal of foods by name, and the totals
  and hourly rates of `updateAverageConsumption`.
- `Pacing` (pacing.dfy): `getTotalTime`, `getTimeEstimate` and `formatTime` with its
  decimal rendering and zero padding.
- `RoutePlanner` (planner.dfy): class `Planner` holding `profile`, `foods` and `points`;
  its methods are the script's handlers and update those fields in place.
- `Scenarios` (scenarios.dfy): client sessions checked from the handlers' contracts alone:
  a click at 0.9 km snaps to the 1 km entry, the same click twice gives two waypoints, two gels
  over two hours give 50 g / 200 kcal and 25 g / 100 kcal per hour, and a waypoint's foods
  are still there after it is removed and added again.

Distances, nutrients and times are exact `real`s.

Where the specification of the application and the script disagree, the model follows the
script:

- The specification makes adding a waypoint idempotent and waypoints unique by distance.
  The script pushes the nearest entry again, so the same entry can be a waypoint twice and
  its foods then count twice (`PushSortedAddsOne`, `TotalAfterAddPoint`, `Scenarios.SameClickTwice`).
- The specification destroys a waypoint's foods with the waypoint. In the script the foods
  belong to the profile entry: they survive `removePoint` and reappear when the entry is
  added again. Only a new upload clears them (`Scenarios.GelsSurviveRemoval`).
- The specification defines the arrival estimate as 0 on a route of length 0. The script
  divides by the route length; the model requires it to be positive.
- The specification computes hourly rates only for a positive duration. The script divides
  by any non-zero duration, a negative one included (`Average`).
- The specification reports a malformed track as an error that leaves the old state intact.
  The script has no such error: `parseFloat` yields NaN, and a missing `ele` element throws
  after the state has already been reset.
- `removeFood` on a waypoint whose entry never had a food throws in the script
  (`Fault(NoFoodList)`); `addFood`/`removeFood` at a distance with no waypoint throw too
  (`Fault(NoSuchPoint)`), and so does `addPoint` before any track is loaded
  (`Fault(EmptyProfile)`). In each case nothing has changed yet.

## Model

| member | source | states |
|---|---|---|
| `Track.BuildProfile` | script.js:37-59 | one entry per sample; the first at distance 0; each later one at the previous distance plus the haversine step between the two samples; elevations copied |
| `Track.BuildProfileExtend` | script.js:50-54 | one more sample appends exactly one entry, a step further on, to the profile built so far |
| `Track.ProfileNonDecreasing` | script.js:43-54 | with a non-negative step function, every distance is non-negative and the distances never decrease |
| `Track.MaxDistance` | script.js:271 | the result is at least every entry's distance and is the distance of some entry |
| `Track.MaxDistanceIsRouteLength` | script.js:271 | on a parsed profile the largest distance is the last entry's, the route length, and it is non-negative |
| `Catalogue.FindByName` | script.js:201 | absent exactly when no entry has the name; otherwise the first entry with that name |
| `Catalogue.Lookup` | script.js:14-22 | lookup in `Catalogue.Foods`, the seven entries of `nutritionData` with their names, kinds, brands, prices, carbohydrate, calories and protein: the entry found is a catalogue entry with the requested name; none is found exactly when no catalogue entry has that name |
| `Catalogue.NamesUnique` | script.js:14-22 | no two catalogue entries share a name |
| `Waypoints.NearestIndex` | script.js:125 | the chosen entry is as close to the clicked distance as every entry, and strictly closer than every earlier one (ties go to the earliest) |
| `Waypoints.NearestUnique` | script.js:125 | at most one entry satisfies that, so the snap is deterministic |
| `Waypoints.PrefixAtMost` | script.js:127 | the leading waypoints counted lie at or before the distance, and the next one lies beyond it |
| `Waypoints.PushSorted` | script.js:126-127 | `points.push(nearest)` then the stable `points.sort` by distance, as one function: the nearest entry goes in after every waypoint at or before its distance; `PushSortedIsTheStableSort` proves this is the stable sort's result |
| `Waypoints.PushSortedShape` | script.js:126-127 | the new reference is inserted at that position; everything before and after keeps its place |
| `Waypoints.PushSortedSorted` | script.js:126-127 | after push and sort the waypoints are sorted by distance |
| `Waypoints.PushSortedAddsOne` | script.js:126 | the waypoints gain exactly one occurrence of the nearest entry, even if it was already a waypoint |
| `Waypoints.PushSortedIsStable` | script.js:126-127 | at every distance the old waypoints keep their order and the new one comes after them |
| `Waypoints.StableSortUnique` | script.js:127 | two sorted lists that agree at every distance are equal |
| `Waypoints.PushSortedIsTheStableSort` | script.js:126-127 | every stable sort of the old waypoints followed by the new one gives exactly this result |
| `Waypoints.HeadIsLeast` | script.js:127 | in a sorted list, a distance that has waypoints is no smaller than the first waypoint's distance |
| `Waypoints.WithoutDistance` | script.js:134 | every survivor was a waypoint and lies at another distance |
| `Waypoints.RemovePointExact` | script.js:134 | no waypoint remains at the removed distance; at every other distance the same waypoints remain, in the same order |
| `Waypoints.RemovePointPartition` | script.js:134 | the kept and the removed waypoints together are the old waypoints |
| `Waypoints.RemoveAbsentIsNoOp` | script.js:134 | removing a distance with no waypoint changes nothing |
| `Waypoints.RemoveKeepsSorted` | script.js:134 | removal keeps the waypoints sorted |
| `Waypoints.FindPoint` | script.js:198 | absent exactly when no waypoint lies at the distance; otherwise the position of the first waypoint there |
| `Ledger.FoodsAt` | script.js:245 | the foods of a profile entry, an absent `foods` list counting as empty (the `point.foods &&` guard) |
| `Ledger.Total` | script.js:244-252 | the total of one nutrient over the foods of every waypoint, a waypoint counted as often as it occurs; `TotalIsSumOfAllFoods` ties it to the flat list of foods |
| `Ledger.WithoutFood` | script.js:210 | removal by name never lengthens a food list |
| `Ledger.RemoveFoodCounts` | script.js:210 | no food with the name remains; every other food remains exactly as often as before |
| `Ledger.RemoveFoodConcat` | script.js:210 | removal works piece by piece, so the remaining foods keep their order |
| `Ledger.RemoveAbsentFoodIsNoOp` | script.js:210 | removing a name that is not on the list changes nothing |
| `Ledger.RemoveFoodTotal` | script.js:210 | a list's total is the total of the kept foods plus the total of the removed ones |
| `Ledger.Average` | script.js:254-256 | for a non-zero duration the rate times the duration gives back the total; for a zero duration the rate is 0 |
| `Ledger.Figures` | script.js:238-256 | the three totals are the sums over all foods of all waypoints; each rate is its total divided by a non-zero duration, else 0 |
| `Ledger.AllFoods` | script.js:244-252 | every food in the flattened list belongs to some waypoint |
| `Ledger.AllFoodsConcat` | script.js:244-252 | the flat list of foods of two waypoint lists joined is the first list's foods followed by the second's |
| `Ledger.AllFoodsOfOne` | script.js:245-247 | one waypoint contributes exactly its entry's foods, so with `AllFoodsConcat` every food of every waypoint is listed once per occurrence of the waypoint |
| `Ledger.TotalIsSumOfAllFoods` | script.js:244-252 | each total equals the plain sum over the flattened list of all foods of all waypoints |
| `Ledger.TotalAfterAddPoint` | script.js:126 | adding a waypoint adds its entry's current foods to each total, including foods kept from before and foods already counted for a duplicate |
| `Ledger.TotalAfterRemovePoint` | script.js:134 | each total splits into the kept waypoints' part and the removed waypoints' part |
| `Ledger.TotalAfterFoodsChange` | script.js:202 | changing one entry's food list changes each total by the list's change times the number of times that entry is a waypoint |
| `Ledger.TimesIsProduct` | script.js:244-252 | adding a value up c times gives c times the value |
| `Ledger.OccurrencesIsMultiplicity` | script.js:126 | the number of times an entry is counted as a waypoint is its multiplicity among the waypoints, duplicates included |
| `Pacing.FieldValue` | script.js:264-266 | the value of one time field, `parseInt` falling back to 0: an unparseable field counts as 0 |
| `Pacing.TotalTime` | script.js:263-268 | the duration in seconds is hours·3600 + minutes·60 + seconds, with unparseable fields taken as 0 |
| `Pacing.TotalTimeNonNegative` | script.js:263-268 | non-negative fields give a non-negative duration |
| `Pacing.TimeEstimate` | script.js:270-273 | the estimate times the route length equals the distance times the planned duration |
| `Pacing.TimeEstimateBounds` | script.js:270-273 | along the route the estimate runs from 0 at the start to the planned duration at the end, and never decreases |
| `Pacing.Clock` | script.js:275-278 | hours is the floor of the time; minutes and seconds each lie in 0..59 |
| `Pacing.ClockTruncates` | script.js:276-278 | the clock shows the last whole second reached: h·3600 + m·60 + s = floor(3600·t), so it never rounds up |
| `Pacing.ClockOfTotalTime` | script.js:263-280 | a duration entered with minutes and seconds below 60 is shown exactly as entered |
| `Pacing.Digits` | script.js:279 | the text of a non-negative number is a non-empty string of decimal digits, one character exactly below 10, at most two below 100, with no leading zero from 10 on |
| `Pacing.ValueOfDigits` | script.js:279 | reading that text back gives the number |
| `Pacing.CanonicalDigits` | script.js:279 | a digit string with no leading zero is the text of its value, so the text of a number is the only such string |
| `Pacing.IntToString` | script.js:279 | `toString()`: a minus sign exactly for a negative number; a non-negative number's text is all digits |
| `Pacing.Pad2` | script.js:279 | `padStart(2, '0')`: a text of two or more characters is kept; a shorter one gets zeros in front up to two characters, and ends with the original |
| `Pacing.Pad2Reads` | script.js:279 | a number below 100, padded, is exactly two digits that read back as the number |
| `Pacing.PadReads` | script.js:279 | any non-negative number, padded, is at least two digits that read back as the number, and from 10 on the padding adds nothing |
| `Pacing.FormatTime` | script.js:275-280 | `formatTime`: the clock text of the time's clock fields; what it shows is stated by `FormatTimeReadsBack` and `FormatTimeIsTheOnlyText` |
| `Pacing.ClockText` | script.js:279 | for minutes and seconds in 0..59 the text has at least eight characters, with colons six and three characters from the end |
| `Pacing.ClockTextReadsBack` | script.js:279 | the text of non-negative clock fields shows them: colon-separated digit fields that read back as the hours, minutes and seconds, the hours two characters below 100 and without leading zero from 10 on |
| `Pacing.FormatTimeReadsBack` | script.js:275-280 | for a non-negative time the text shows the clock's hours, minutes and seconds in that way |
| `Pacing.FieldUnique` | script.js:279 | a digit field that reads back as v, two characters below 100 and without leading zero from 100 on, is exactly v padded |
| `Pacing.ShowsOnlyClockText` | script.js:279 | only one text shows given clock fields: the one built from them |
| `Pacing.FormatTimeIsTheOnlyText` | script.js:275-280 | for a non-negative time, `formatTime`'s text is the only text that shows its clock, so the hours field has no extra zeros |
| `RoutePlanner.Planner.constructor` | script.js:11-12 | the page starts with no profile and no waypoints |
| `RoutePlanner.Planner.ParseGpx` | script.js:37-59 | the profile becomes that of the samples; every entry starts with no food list; the waypoints are cleared |
| `RoutePlanner.Planner.AddPoint` | script.js:124-127 | on an empty profile it fails and changes nothing; otherwise the waypoints become the stable sort of the old ones plus the nearest entry, and profile and foods are unchanged |
| `RoutePlanner.Planner.RemovePoint` | script.js:133-134 | the waypoints lose every waypoint at that distance; profile and foods are unchanged; the list stays sorted |
| `RoutePlanner.Planner.AddFood` | script.js:197-202 | with no waypoint at that distance it fails and changes nothing; otherwise the catalogue entry is appended to the first such waypoint's entry, whose list is created if absent, and no other entry changes |
| `RoutePlanner.Planner.RemoveFood` | script.js:208-210 | it fails and changes nothing with no waypoint at that distance or no food list there; otherwise that list loses every food with the name, and no other entry changes |
| `RoutePlanner.Planner.UpdateAverageConsumption` | script.js:238-256 | the nested loops produce exactly the figures of `Figures` for the current foods and waypoints |
| `Scenarios.GelLookup` | script.js:17 | the selector value "Maurten Gel 100" finds the entry with 25 g of carbohydrate and 100 kcal |

## Left out

- Rendering: `drawChart`, `updatePointsInfo`, `updateNutritionList`, the element lookups and
  every `innerHTML`/`textContent` write. The handlers' calls to them after each change are not
  modelled; `UpdateAverageConsumption` returns the six figures instead of writing them.
- `toFixed(2)` formatting of distances, elevations and nutrient figures.
- File input and XML: `handleFileUpload`, `FileReader`, `DOMParser`, the extraction of
  `trkpt`/`ele` and the `parseFloat` of their text. `ParseGpx` takes the samples already read
  as numbers. A malformed sample (NaN, or a missing `ele` that throws mid-loop) is not modelled.
- The haversine formula (script.js:61-70): floating-point trigonometry, taken as the parameter
  `hav`. Monotonicity is proved for any non-negative `hav`.
- The d3 chart and its click handling: `x.invert` of the pointer position is the `target`
  argument of `AddPoint`, and a marker click is the `distance` argument of `RemovePoint`.
- IEEE-754 arithmetic: all quantities are exact reals, with no NaN or infinities.
  `ClockOfTotalTime` holds in exact arithmetic; with binary floating point the script can show
  one second less for some inputs.
- `Pacing.TimeEstimate`: requires a positive route length. The script divides by zero on a
  profile whose distances are all 0, and `d3.max` of an empty profile is undefined.
- `RoutePlanner.Planner.AddFood`: requires the name to be in the catalogue. The selector only
  offers catalogue names; with any other name the script would push `undefined` and then throw
  while rendering.
- `Pacing.IntToString`: `Number.prototype.toString` switches to exponent notation from 1e21;
  that is not modelled.
- `getTotalTime` reads three input fields with `parseInt`. The model takes each field as an
  optional integer (absent when unparseable); the text parsing itself is not modelled.
- `points.sort` is modelled by its result: the stable sort that ECMAScript requires since 2019.
  The sorting algorithm itself is not modelled.
