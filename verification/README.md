# Mass-transit route post-processing of the Yandex MapKit Flutter plugin

The plugin's Android controller (Java) and iOS controller (Swift) both receive
the sections of a mass-transit route from the Yandex MapKit router. Each
controller turns them into two lists for the Flutter side:

- a list of **sections**, in which every maximal run of consecutive walking
  ("pedestrian") sections is collapsed into one section;
- a list of **route points**, one at each end of the route and one at each
  junction between consecutive sections.

This project models that post-processing as pure Dafny functions over
immutable datatypes and proves its properties:

- **points.dfy** (`Points`): `RoutePoint`, `PointBound`, the priority rule
  `MaxPoint` (strictly greater `zIndex` wins, a tie goes to the second
  argument) and `MergePoints`.
- **sections.dfy** (`Sections`): `SectionInfo`, a sum type with a `Plain`
  variant for walks and a `Transit` variant for rides.
  `MergeSectionInfoList` is written as the source's loop, with the carried
  section `prev` as a parameter. It is proved equal to a reference
  definition: cut the list into maximal runs, then collapse each run.
- **waypoints.dfy** (`Waypoints`): `CreateRoutePoints`, and the iOS variant,
  which traps on a single section.
- **classification.dfy** (`Classification`): `getMasstransitSectionInfo` on
  an abstract routing-engine section, for both platforms. The abstract
  section holds optional transports (line name, optional line colour,
  vehicle types), stop names, time and walking distance.
- **pipeline.dfy** (`Pipeline`): the route-building path of
  `onMasstransitRoutes` and `onMasstransitRouteReceived`, which classify,
  consolidate and derive waypoints.

Colours are 32-bit ARGB values (`bv32`), so the source's `| 0xFF000000` is
a bitwise OR. Durations and distances are `real`.

## Tie-breaking and merged bounds

Two behaviours of the code are easy to misread.

- `maxPoint` uses a strict `>`, so on a priority tie it keeps the SECOND
  point, not the first (`Points.MaxPoint`, `Points.MaxPointTieIsRightBiased`).
- A merged walk does not simply start at its first section's start and end
  at its last section's end. The bounds are folded with `maxPoint`, so the
  merged start is the LAST start of highest priority in the run, and likewise
  for the end (`Sections.CollapseRun`, `Sections.MergedWalkBoundsFollowPriority`).

A single-section route gives two route points on Android only. iOS traps
(see Findings).

## Model

| member | source | states |
|---|---|---|
| Points.MaxPoint | android/src/main/java/com/unact/yandexmapkit/YandexMapController.java:854-856 | the result is one of the two points, its zIndex is at least both, and on equal zIndex it is the second point |
| Points.MaxPointTieIsRightBiased | ios/Classes/YandexMapController.swift:173-175 | on a tie, swapping the arguments changes the result: the rule is right-biased, not commutative |
| Points.MergePoints | android/src/main/java/com/unact/yandexmapkit/YandexMapController.java:847-852 | start and end are each chosen independently from the two bounds by the priority rule, ties going to the second bound |
| Points.MaxPointAssociative | android/src/main/java/com/unact/yandexmapkit/YandexMapController.java:854-856 | choosing among three points does not depend on grouping |
| Points.MergePointsAssociative | ios/Classes/YandexMapController.swift:233-238 | merging bounds is associative; both platforms fold a run's bounds left to right, and this shows the result does not depend on that fold order |
| Points.PeakFromIsLastPeak | android/src/main/java/com/unact/yandexmapkit/YandexMapController.java:823-830 | folding the priority rule over a list of points yields the LAST point that has the highest zIndex |
| Sections.JoinWalks | android/src/main/java/com/unact/yandexmapkit/YandexMapController.java:824-830 | joining two walks keeps the first one's tag and colour and adds up time and walking distance |
| Sections.MergeFrom | android/src/main/java/com/unact/yandexmapkit/YandexMapController.java:821-838 | the loop state (carried section, rest of the input) emits between 1 and rest+1 sections, the first with the carried tag and colour |
| Sections.MergeSectionInfoList | ios/Classes/YandexMapController.swift:203-231 | empty input gives empty output; otherwise the output is non-empty, no longer than the input, and starts with the first section's tag and colour |
| Sections.MergeKeepsLengthIff | android/src/main/java/com/unact/yandexmapkit/YandexMapController.java:817-845 | the output has the input's length exactly when no two neighbouring inputs are both walks |
| Sections.MergedHasNoAdjacentWalks | android/src/main/java/com/unact/yandexmapkit/YandexMapController.java:821-838 | no two neighbouring output sections are both walks |
| Sections.MergeFixpointIff | android/src/main/java/com/unact/yandexmapkit/YandexMapController.java:823-834 | a list is left unchanged exactly when it has no two neighbouring walks |
| Sections.MergeIdempotent | ios/Classes/YandexMapController.swift:207-224 | merging the merged list changes nothing |
| Sections.MergeSingleIff | ios/Classes/YandexMapController.swift:203-231 | the output has one section exactly when the input is one section or a non-empty all-walk list |
| Sections.MergeKeepsRides | android/src/main/java/com/unact/yandexmapkit/YandexMapController.java:831-834 | the non-walking sections come out unchanged and in their original order, and no others appear |
| Sections.MergeKeepsTotals | android/src/main/java/com/unact/yandexmapkit/YandexMapController.java:826-827 | total time and total walking distance of the list are preserved |
| Sections.RunsAreMaximal | android/src/main/java/com/unact/yandexmapkit/YandexMapController.java:821-838 | the reference split cuts any list into maximal runs: lone rides or blocks of walks, no two walk blocks adjacent, concatenating back to the list |
| Sections.CollapseRun | ios/Classes/YandexMapController.swift:209-216 | a collapsed run has the first section's tag and colour, summed time and walking distance, and as start (end) the last highest-priority start (end) of the run |
| Sections.MergeFromAbsorbsWalks | android/src/main/java/com/unact/yandexmapkit/YandexMapController.java:823-830 | a carried walk absorbs all walks that follow it into one collapsed section |
| Sections.MergeIsCollapsedRuns | android/src/main/java/com/unact/yandexmapkit/YandexMapController.java:817-845 | the merge equals the reference definition: split into maximal runs and collapse each run |
| Sections.MergedWalkBoundsFollowPriority | android/src/main/java/com/unact/yandexmapkit/YandexMapController.java:829 | example: two merged walks take the later start on a tie and the earlier, higher-priority end |
| Waypoints.Junctions | android/src/main/java/com/unact/yandexmapkit/YandexMapController.java:802-810 | the junction points are, pointwise, the priority choice between a section's end and the next section's start |
| Waypoints.CreateRoutePoints | android/src/main/java/com/unact/yandexmapkit/YandexMapController.java:791-815 | empty gives empty; N sections give N+1 points: first start, last end, and in between the priority choice at each junction |
| Waypoints.JunctionIsHigherBoundary | ios/Classes/YandexMapController.swift:188-196 | each interior point is one of the two meeting boundary points, outranks or ties both, and is the earlier end only when that end is strictly higher |
| Waypoints.SwiftCreateRoutePoints | ios/Classes/YandexMapController.swift:177-201 | iOS traps exactly for one section and otherwise returns the Android waypoints |
| Waypoints.SwiftTrapsOnSingleSection | ios/Classes/YandexMapController.swift:188 | example: one section traps on iOS and yields start and end on Android |
| Classification.GetVehicleType | android/src/main/java/com/unact/yandexmapkit/YandexMapController.java:1054-1070 | absent exactly when no vehicle type is known; otherwise a known type that appears in the list with no known type before it |
| Classification.LineStyle | android/src/main/java/com/unact/yandexmapkit/YandexMapController.java:942-954 | the colour is the first coloured line's colour made opaque, with that line's name; without a coloured line, the default colour and the last line's name |
| Classification.LineStyleColor | ios/Classes/YandexMapController.swift:440-448 | the section colour is either the default or has an opaque alpha byte |
| Classification.VehicleTypes | android/src/main/java/com/unact/yandexmapkit/YandexMapController.java:963-964 | one reported vehicle type per transport, in order, and every reported type is one of the three known ones |
| Classification.KnownPrefixExists | android/src/main/java/com/unact/yandexmapkit/YandexMapController.java:963-966 | every list of reported types has a prefix of known types ending at the first unknown one (or the end), where the loop stops |
| Classification.EveryRideHasKnownPrefix | android/src/main/java/com/unact/yandexmapkit/YandexMapController.java:963-966 | every ride's transports have such a prefix, so the vehicle-loop lemmas cover every ride |
| Classification.JavaVehicleStyleIsLastKnown | android/src/main/java/com/unact/yandexmapkit/YandexMapController.java:963-979 | the vehicle loop stops at the first unknown transport; the tag and priority are those of the last known transport before it; the colour turns to the ride colour if a bus or tram is among them |
| Classification.JavaVehicleStyleTags | android/src/main/java/com/unact/yandexmapkit/YandexMapController.java:963-979 | the loop only ever produces an empty, bus, tramway or underground tag and a priority from 0 to 3 |
| Classification.SwiftVehicleStyleIsInert | ios/Classes/YandexMapController.swift:452-469 | the iOS vehicle loop never changes the style, because it breaks exactly when a known type is found |
| Classification.IntermediateStations | android/src/main/java/com/unact/yandexmapkit/YandexMapController.java:1020-1028 | with more than two stops, the stations are exactly the stops strictly between first and last; otherwise none |
| Classification.StationsRebuildStops | ios/Classes/YandexMapController.swift:506-513 | first stop, intermediate stations and last stop together rebuild the stop list |
| Classification.GetMasstransitSectionInfo | android/src/main/java/com/unact/yandexmapkit/YandexMapController.java:919-1052 | a section without transports is a plain walk in the walk colour; rides are never walks; time and distance carry over; no stops give sentinel ends; otherwise the ends are the first and last stop in the section colour with one priority; a ride carries the line name the colour loop picked (the first coloured line's, else the last line's) |
| Classification.RideClassification | android/src/main/java/com/unact/yandexmapkit/YandexMapController.java:937-979 | a ride's tag and priority are those of its last known transport before the first unknown one; its colour is the ride colour when a bus or tram is among them and otherwise the line colour it started with; with no known transport it keeps an empty tag and its line colour |
| Classification.SwiftGetMasstransitSectionInfo | ios/Classes/YandexMapController.swift:430-539 | iOS classifies walks as Android does; a ride equals the Android section except that its tag is empty, its colour is the line colour, its direction is empty and its ends have priority 0 (sentinel ends when there are no stops) |
| Classification.SwiftDropsVehicleStyle | ios/Classes/YandexMapController.swift:455-457 | example: a bus ride is tagged bus with priority 1 on Android and untagged with priority 0 on iOS |
| Pipeline.ClassifyKeepsDuration | android/src/main/java/com/unact/yandexmapkit/YandexMapController.java:987 | classification carries each section's time, so the route total is unchanged |
| Pipeline.ClassifiedWalksIff | android/src/main/java/com/unact/yandexmapkit/YandexMapController.java:937-985 | a classified route is all walks exactly when no raw section has transports |
| Pipeline.OnMasstransitRoutes | android/src/main/java/com/unact/yandexmapkit/YandexMapController.java:748-769 | at most one section per raw section, none adjacent walks, total time preserved, rides kept in order, one more waypoint than sections, nothing for an empty route; the waypoints are exactly those derived from the consolidated sections |
| Pipeline.SwiftOnMasstransitRouteReceived | ios/Classes/YandexMapController.swift:351-375 | iOS traps exactly for a one-section route or a non-empty all-walk route; otherwise waypoints follow the Android rule |
| Pipeline.SwiftEmptyRouteIsEmpty | ios/Classes/YandexMapController.swift:351-375 | with no classified sections, as on the estimation path, iOS reports an empty route and does not trap |
| Pipeline.SwiftTrapsOnWalkOnlyRoute | ios/Classes/YandexMapController.swift:374-375 | example: two walks give one section and two waypoints on Android and a trap on iOS |

## Left out

- Map rendering: polylines, placemarks, camera, zoom, user-location layer and tap listeners all drive the vendor map SDK.
- The router, search and method-channel dispatch, and the estimation result itself. They are asynchronous vendor callbacks and channel plumbing. The model starts from the sections of the first route alternative. On the estimation path Android returns before consolidating. iOS does not return there: it consolidates an empty list and derives no waypoints, which `Pipeline.SwiftEmptyRouteIsEmpty` states.
- `Geo.distance`, `SubpolylineHelper` and the vendor `Section`/`Transport` objects. They are foreign code; a section is abstracted to transports, stop names, time and walking distance.
- `toString`/`serialize`: these only format values. Note that a transport section reports `intermediateStations.size`, not the list itself.
- Colour conversion (`uiColorFromHex`, `uiColorToHex`) and the `Float`/`Double` casts. They are floating-point colour channels; durations and distances are exact reals with no IEEE rounding.
- Classification.SwiftGetMasstransitSectionInfo: models Swift's 64-bit `Int` colour as 32 bits. The OR with 0xFF000000 agrees on any 32-bit line colour.
- The Swift tag typo "undeground" sits in a branch that cannot run. It appears in `Classification.SwiftStep` but never in a result.

## Findings

| source | as written | input that shows it | evidently intended | confidence | as-written member | corrected member |
|---|---|---|---|---|---|---|
| ios/Classes/YandexMapController.swift:188 | `for i in 0...sections.count - 2` builds the range `0...-1` for one section, which traps | a route of one section, or of two walks that merge into one | two waypoints, the section's start and end, as on Android | high; not executed | Waypoints.SwiftCreateRoutePoints | Waypoints.CreateRoutePoints |
| ios/Classes/YandexMapController.swift:455 | `if sectionVehicleType != nil { break }` leaves the loop as soon as a known type is found, so no ride is ever tagged | a ride whose line has vehicle type "bus" | tag "bus", priority 1, ride colour, as on Android | high; not executed | Classification.SwiftGetMasstransitSectionInfo | Classification.GetMasstransitSectionInfo |
| ios/Classes/YandexMapController.swift:507 | `let directionDesc = ...` declares a new local, so the section's direction description stays "" | a ride with stops A, B, C | direction description "B", as on Android | high; not executed | Classification.SwiftGetMasstransitSectionInfo | Classification.GetMasstransitSectionInfo |
