# Pothole detection and reporting, modelled in Dafny

The system turns a road video into a list of potholes and manages them. It has three parts, and this project models the core logic of each.

- **Analysis server** (ml-server/main.py):
  - only every 20th frame goes to the object detector;
  - all predictions are pooled;
  - detections are grouped across frames by a greedy, anchor-only Intersection-over-Union clustering;
  - one highest-confidence representative is kept per cluster, and the first 8 are kept;
  - each is graded by confidence ("high" from 0.77, "medium" from 0.50);
  - each gets a thumbnail clamped to the preview frame;
  - the video gets the worst grade as its overall severity.
  - Modules: `BoxGeometry`, `IouClusterer`, `SeverityClassifier`, `FrameSampler`, `VideoAnalysis`.
- **Backend** (Express controllers over MongoDB):
  - upload normalisation: GPS and detection cleaning, the backend's own 0.8 severity rule, nearest-timestamp GPS matching with a proportional fallback, thumbnail truncation, the 5-pothole cap, and the field-checked update (`PotholeController`);
  - the two assignment workflows, which bucket records, expire fixed ones after ten days and cascade "fixed" to potholes (`AssignmentController`, `ContractorAssignmentController`);
  - the government-authorisation request state machine (`GovRequestController`);
  - the administrator's role listing (`AdminController`);
  - each collection is a class holding a map plus its listing order (`Store`).
- **Demo data and frontend**:
  - the deterministic demo generators of the backend and the frontend, sharing one 32-bit string hash and one linear congruential generator (`Seeding`, `PotholeGenerator`, `UserDataGenerator`);
  - the upload page's timestamp parser, delimited GPS parser and client-side overall severity (`UploadVideo`);
  - the map-safety helpers (`PotholeUtils`);
  - `Js` holds the JavaScript and Python semantics these rely on: numbers with NaN and infinities, `trim`, ASCII `toLowerCase`, `includes`, `Math.round`, `int()`, `x | 0` and decimal rendering.

Several rules disagree across components, and each is modelled as written:
- the severity thresholds are 0.77 in the analysis server and 0.8 in the backend;
- the cap is 8 in the analysis server and 5 in the backend upload;
- the page's fallback severity says "none" where the server would say "low" (`UploadVideo.ClientAgreesWithServer` states the exact relation).

Some behaviour of the source is modelled as written, and lemmas state its consequences:
- In the GPS parser, the alternative `lng` header is never consulted: `findIndex` answers -1, never null. `UploadVideo.HeaderDetection` shows this.
- A header line starting with a separator shifts its column positions against the data tokens (`UploadVideo.LeadingSeparatorShiftsColumns`).
- A contractor assignment request naming the same pothole twice, in the same or in different letter case, is refused like one naming an unknown pothole (`ContractorAssignmentController.RepeatedIdRefused` with `ContractorAssignmentController.FoundAllIff`).
- The analysis server's crop bounds can become negative, which numpy reads from the end of the axis (`VideoAnalysis.SliceBound`).

Floating-point quantities are reals. Clocks, fresh ids and text-to-number conversions are parameters.

## Model

| member | source | states |
|---|---|---|
| BoxGeometry.InterWithin | ml-server/main.py:58-61 | the intersection rectangle's width and height are no larger than either box's |
| BoxGeometry.InterAreaBounded | ml-server/main.py:58-68 | for overlapping boxes the intersection area is positive and at most each box's area |
| BoxGeometry.UnionRatio | ml-server/main.py:69 | `inter / (areaA + areaB - inter)` lies in (0, 1] whenever the intersection fits in both boxes |
| BoxGeometry.OverlapRatio | ml-server/main.py:66-69 | the IoU of two overlapping boxes lies in (0, 1] |
| BoxGeometry.Iou | ml-server/main.py:45-69 | IoU is 0 exactly when the boxes do not overlap with positive width and height (touching boxes give 0), and otherwise lies in (0, 1] |
| BoxGeometry.IouSymmetric | ml-server/main.py:45-69 | IoU does not depend on the order of its arguments |
| BoxGeometry.IouSelf | ml-server/main.py:45-69 | a box with positive width and height has IoU 1 with itself |
| IouClusterer.Members | ml-server/main.py:81-86 | a cluster lists its anchor (`cluster[0]`) first, then the detections that joined it |
| IouClusterer.FirstMatch | ml-server/main.py:79-83 | the first cluster whose anchor overlaps the detection by more than the threshold; every earlier anchor does not |
| IouClusterer.BestIndex | ml-server/main.py:89 | the position of a highest-confidence member, the earliest one on ties, as `max` keeps the first maximal element |
| IouClusterer.Representatives | ml-server/main.py:88-90 | one representative per cluster, in cluster order, each a member of its cluster with confidence at least that of every member |
| IouClusterer.ClusterDetections | ml-server/main.py:72-90 | the imperative loop with its `placed` flag and `break` computes the greedy clusters' representatives, and returns no more of them than there were detections |
| IouClusterer.ClusterCount | ml-server/main.py:74-86 | there are never more clusters than detections, and at least one cluster when there is a detection |
| IouClusterer.PooledAppend | ml-server/main.py:86 | opening a cluster adds exactly its members to the pooled multiset |
| IouClusterer.PooledJoin | ml-server/main.py:81 | appending a detection to a cluster adds exactly that detection to the pooled multiset |
| IouClusterer.PlacePooled | ml-server/main.py:79-86 | one greedy step adds exactly the new detection to the pooled members |
| IouClusterer.ClustersPartition | ml-server/main.py:72-86 | the clusters partition the input: their pooled members equal the input detections, counted with multiplicity |
| IouClusterer.JoinKeepsAnchorRule | ml-server/main.py:79-83 | joining the first matching cluster keeps the anchor-only first-match rule |
| IouClusterer.OpenKeepsAnchorRule | ml-server/main.py:85-86 | opening a cluster for a detection that matches no anchor keeps the anchor-only first-match rule |
| IouClusterer.PlaceKeepsAnchorRule | ml-server/main.py:76-86 | one greedy step keeps the anchor-only first-match rule |
| IouClusterer.ClustersFollowAnchorRule | ml-server/main.py:72-86 | in the final clusters each anchor fails to match every earlier anchor, and each joined detection matches its own anchor and no earlier one |
| IouClusterer.ClustersSnoc | ml-server/main.py:76 | the clusters of a list extended by one detection are one greedy step after the clusters of the list |
| IouClusterer.PlaceAfterOne | ml-server/main.py:79-86 | with one cluster, a detection joins it exactly when it overlaps the anchor by more than the threshold, and opens a second cluster otherwise |
| IouClusterer.ClustersOfOne | ml-server/main.py:85-86 | the first detection always opens a cluster |
| IouClusterer.ClustersOfTwo | ml-server/main.py:79-83 | a second detection that overlaps the first joins its cluster |
| IouClusterer.IouOfOffsetSquares | ml-server/main.py:45-69 | two 4x4 squares offset by half a pixel in both directions have IoU 12.25/19.75 |
| IouClusterer.TwoOverlappingDetectionsMerge | ml-server/main.py:72-90 | two such detections form one cluster whose representative is the more confident one |
| IouClusterer.IouOfShiftedSquares | ml-server/main.py:45-69 | 4x4 squares 1.5 pixels apart have IoU 10/22 |
| IouClusterer.IouOfDistantSquares | ml-server/main.py:45-69 | 4x4 squares 3 pixels apart have IoU 4/28 |
| IouClusterer.ClustersOfThree | ml-server/main.py:76-86 | when B joins A's cluster and C does not match A, C opens its own cluster, whatever its overlap with B |
| IouClusterer.AnchorOnlyMatching | ml-server/main.py:80 | matching uses the anchor only and so is not transitive: with IoU(A,B) and IoU(B,C) above 0.3 and IoU(A,C) at most 0.3, [A, B, C] gives the clusters {A, B} and {C} |
| SeverityClassifier.ClassifySeverity | ml-server/main.py:111-118 | "high" exactly from 0.77, "medium" exactly on [0.50, 0.77), "low" exactly below 0.50 |
| SeverityClassifier.ClassifyMonotone | ml-server/main.py:111-118 | a more confident detection never gets a lower grade |
| SeverityClassifier.OverallSeverity | ml-server/main.py:225-234 | "none" exactly for no grades, "high" exactly when a high grade is present, "medium" exactly when medium but no high is, "low" otherwise |
| SeverityClassifier.Grades | ml-server/main.py:178-179 | the grades are in order, one per detection, each the detection's own classification |
| SeverityClassifier.OverallIsGradeOfMostConfident | ml-server/main.py:225-234 | the worst grade present equals the grade of the most confident detection |
| FrameSampler.CollectDetections | ml-server/main.py:140-169 | the frame loop pools exactly the predictions of the sampled frames, in order, and keeps the preview defined by `Preview` |
| FrameSampler.SampledDetectionsMembership | ml-server/main.py:150-163 | a detection is pooled exactly when some sampled frame reported it |
| FrameSampler.UnsampledFramesIgnored | ml-server/main.py:150-152 | frames off the sampling interval change neither the pooled detections nor the preview |
| FrameSampler.PreviewIsFirstProductive | ml-server/main.py:165-167 | the preview is the first sampled frame with a prediction, and there is none exactly when no sampled frame has one |
| FrameSampler.PreviewIffDetections | ml-server/main.py:141-167 | there is a preview frame exactly when something was pooled |
| VideoAnalysis.SliceBound | ml-server/main.py:201 | numpy's reading of a slice bound stays within the axis: negative bounds count from the end, then clamp |
| VideoAnalysis.CropCorners | ml-server/main.py:194-198 | the crop corners are truncated towards zero after clamping, so `x1` and `y1` are non-negative and `x2`, `y2` do not exceed the frame |
| VideoAnalysis.ThumbnailOf | ml-server/main.py:194-213 | with `x1, y1` the box's near corner clamped at 0 and `x2, y2` its far corner clamped to the frame, all truncated: the crop is exactly rows `[y1, y2)` and columns `[x1, x2)` when `x1 < x2` and `y1 < y2`; the whole frame when a non-negative far corner does not pass the near one; a negative far corner counts from the frame's far edge; any crop is a non-empty region within the frame |
| VideoAnalysis.ThumbnailOfInnerBox | ml-server/main.py:194-201 | a box inside the frame is cropped to its own truncated corners |
| VideoAnalysis.ThumbnailOfBoxAboveFrame | ml-server/main.py:198-201 | a box entirely above the frame gives a negative `y2`, which numpy counts from the bottom: the crop is 92 of 100 rows, not empty |
| VideoAnalysis.Take | ml-server/main.py:175 | `s[:n]` is a prefix of `s` of length at most `n`, and all of `s` when it is short enough |
| VideoAnalysis.KeptIffDetected | ml-server/main.py:171-183 | some detection is kept exactly when something was pooled, exactly when there is a preview frame |
| VideoAnalysis.GradeAll | ml-server/main.py:178-179 | the grading loop yields the grade of every kept detection, in order |
| VideoAnalysis.BuildEntries | ml-server/main.py:190-223 | one response entry per kept detection, in order, with its grade, box and thumbnail |
| VideoAnalysis.AnalyzeVideo | ml-server/main.py:121-240 | at most 8 potholes, one per kept cluster representative with its thumbnail; an annotated preview exactly when something is kept; overall severity "none" exactly when nothing was detected |
| VideoAnalysis.OverallIsGradeOfMostConfidentKept | ml-server/main.py:225-234 | the overall severity is the grade of the most confident kept pothole |
| VideoAnalysis.KeptWereDetected | ml-server/main.py:140-175 | every kept detection was reported on some sampled frame |
| VideoAnalysis.ClusterMembersDetected | ml-server/main.py:81-86 | every member of a cluster is among the pooled members |
| Js.Abs | backend/controllers/pothole.controller.js:100-102 | `Math.abs` of a real is non-negative and equals the argument or its negation |
| Js.Distance | backend/controllers/pothole.controller.js:100-102 | `Math.abs(a - b)` with a finite `a` is finite and non-negative for finite `b`, +Infinity for an infinite `b`, NaN for NaN |
| Js.LeadingSpace | backend/controllers/assignment.controller.js:92 | the leading run of white space: all white space, followed by a non-space character or the end |
| Js.TrailingEnd | backend/controllers/assignment.controller.js:92 | the end of the text without its trailing white space, which ends on a non-space character or is empty |
| Js.Trim | backend/controllers/assignment.controller.js:92-109 | `trim()` is no longer than its input, and is empty or starts and ends with a non-space character |
| Js.TrimIsInfix | backend/controllers/assignment.controller.js:109 | the trimmed text is an infix of the original |
| Js.TrimEmptyIffAllSpace | backend/controllers/assignment.controller.js:92 | `s.trim().length === 0` exactly when `s` is all white space |
| Js.TrimOfTrimmed | backend/controllers/contractorAssignment.controller.js:58 | a text that neither starts nor ends with white space is its own trim |
| Js.TrimIdempotent | backend/controllers/govRequest.controller.js:43 | trimming twice is trimming once |
| Js.ToLower | backend/controllers/govRequest.controller.js:43 | `toLowerCase()` keeps the length and lower-cases character by character |
| Js.NotContainsMissingChar | frontend/src/pages/UploadVideo.tsx:43-47 | `s.includes(sub)` is false when `sub` has a character `s` lacks |
| Js.IndexOf | backend/controllers/pothole.controller.js:137 | `indexOf(c)` is -1 exactly when `c` is absent, and otherwise the first position of `c` |
| Js.Round | backend/controllers/pothole.controller.js:114 | `Math.round(x)` lies in (x - 0.5, x + 0.5] |
| Js.Trunc | ml-server/main.py:195-198 | Python's `int(x)` truncates towards zero: within one below a non-negative `x`, within one above a negative `x` |
| Js.Wrap32 | backend/utils/potholeGenerator.js:9 | the bitwise or with 0 is a signed 32-bit value congruent to `n` modulo 2^32 |
| Js.IntAbs | frontend/src/utils/userDataGenerator.ts:13 | `Math.abs` of an integer is a natural equal to it or to its negation |
| Js.NatToString | frontend/src/utils/userDataGenerator.ts:74 | the decimal rendering is non-empty, all digits, and ends in the last digit of the number |
| Js.NatToStringInjective | frontend/src/utils/userDataGenerator.ts:74 | distinct numbers render as distinct decimal strings |
| Seeding.ShiftLeft5 | backend/utils/potholeGenerator.js:8 | `hash << 5` is a signed 32-bit value |
| Seeding.Hash32 | backend/utils/potholeGenerator.js:5-10 | the hash loop stays a signed 32-bit value |
| Seeding.StringHash | backend/utils/potholeGenerator.js:5-10 | the imperative hash loop computes `Hash32` of the text |
| Seeding.Wrap32Congruent | backend/utils/potholeGenerator.js:9 | numbers congruent modulo 2^32 wrap to the same 32-bit value |
| Seeding.Wrap32OfInRange | backend/utils/potholeGenerator.js:9 | a signed 32-bit value wraps to itself |
| Seeding.HashStepTimes31 | backend/utils/potholeGenerator.js:8-9 | one step is `31 * hash + code`, wrapped to 32 bits |
| Seeding.HashIsPolynomial | backend/utils/potholeGenerator.js:5-10 | the hash is the polynomial hash with base 31 of the character codes, reduced to a signed 32-bit value |
| Seeding.JsRem | backend/utils/potholeGenerator.js:20 | JavaScript's `%` takes the sign of the dividend and stays below the modulus in magnitude |
| Seeding.LcgStep | backend/utils/potholeGenerator.js:20 | from a non-negative seed, the next seed lies in [0, 233280) |
| Seeding.Unit | backend/utils/potholeGenerator.js:21 | for a seed in [0, 233280), `next()` returns a value in [0, 1) |
| Seeding.DrawIntInRange | backend/utils/potholeGenerator.js:24-26 | from a non-negative seed, `nextInt(min, max)` lies in [min, max] |
| Seeding.DrawFloatInRange | backend/utils/potholeGenerator.js:28-30 | from a non-negative seed, `nextFloat(min, max)` lies in [min, max), or equals `min` when `min == max` |
| Seeding.ScaledUnitInRange | backend/utils/potholeGenerator.js:29 | `u * (max - min) + min` (written `Scale(u, max - min) + min`) for `u` in [0, 1) lies in [min, max], strictly below `max` when `min < max` |
| Seeding.SeededRandom.constructor | backend/utils/potholeGenerator.js:15-17 | the generator starts from the given seed |
| Seeding.SeededRandom.Next | backend/utils/potholeGenerator.js:19-22 | advances the seed by one LCG step and returns the new seed scaled to [0, 1) |
| Seeding.SeededRandom.NextInt | backend/utils/potholeGenerator.js:24-26 | advances the seed once and returns a value in [min, max] |
| Seeding.SeededRandom.NextFloat | backend/utils/potholeGenerator.js:28-30 | advances the seed once and returns a value in [min, max) |
| UserDataGenerator.UserSeed | frontend/src/utils/userDataGenerator.ts:6-14 | the seed is the absolute value of the hash, 0 for an empty user id, with no default text and no replacement of 0 |
| UserDataGenerator.GetSeed | frontend/src/utils/userDataGenerator.ts:6-14 | the imperative `getSeed` computes `UserSeed` |
| UserDataGenerator.DemoIdsDistinct | frontend/src/utils/userDataGenerator.ts:74 | ids `${seed}-${i}` at different positions differ |
| UserDataGenerator.NextPothole | frontend/src/utils/userDataGenerator.ts:60-97 | one loop iteration yields a pothole with id `${seed}-${i}`, video id `video-${seed}`, coordinates within 0.1 of the base, a listed severity and status, box fields in their ranges, the gps match copying position and creation time, a contractor exactly for in-progress potholes, and dates within 30 days before now and at most 5 days apart |
| UserDataGenerator.DrawDates | frontend/src/utils/userDataGenerator.ts:69-71 | creation at most 30 days before now, update at most 5 days after creation |
| UserDataGenerator.DrawMeta | frontend/src/utils/userDataGenerator.ts:82-87 | box x in [100, 520), y in [100, 360), width and height in [40, 180) |
| UserDataGenerator.DrawContractor | frontend/src/utils/userDataGenerator.ts:94 | a contractor "Contractor k" with k in [1, 5] exactly for an in-progress pothole |
| UserDataGenerator.DrawnSnoc | frontend/src/utils/userDataGenerator.ts:60-98 | appending the next plausible pothole keeps the list numbered from 0 and plausible |
| UserDataGenerator.DrawPotholes | frontend/src/utils/userDataGenerator.ts:56-98 | the loop yields `count` plausible potholes numbered from 0 |
| UserDataGenerator.GenerateUserPotholes | frontend/src/utils/userDataGenerator.ts:44-101 | 25 potholes for the test user and 8 to 18 otherwise; distinct ids, one shared video id, each pothole plausible |
| UserDataGenerator.CountSeverity | frontend/src/utils/userDataGenerator.ts:114-117 | a count of one severity never exceeds the number of potholes |
| UserDataGenerator.CountStatus | frontend/src/utils/userDataGenerator.ts:114-117 | a count of one status never exceeds the number of potholes |
| UserDataGenerator.GenerateUserStats | frontend/src/utils/userDataGenerator.ts:106-120 | the total is the list's length, `by_date` is empty, and each severity and status count is the number of potholes with that value |
| UserDataGenerator.SeverityStep | frontend/src/utils/userDataGenerator.ts:115 | one more pothole adds one to the count of its own severity and nothing to the others |
| UserDataGenerator.StatusStep | frontend/src/utils/userDataGenerator.ts:116 | one more pothole adds one to the count of its own status and nothing to the others |
| UserDataGenerator.SeverityTallyStep | frontend/src/utils/userDataGenerator.ts:115 | the loop's increment keeps the severity counts equal to those of the prefix read so far |
| UserDataGenerator.StatusTallyStep | frontend/src/utils/userDataGenerator.ts:116 | the loop's increment keeps the status counts equal to those of the prefix read so far |
| UserDataGenerator.CountsAddUp | frontend/src/utils/userDataGenerator.ts:107-117 | the three severity counts add up to the total, and so do the three status counts |
| UserDataGenerator.GeneratedAreTyped | frontend/src/utils/userDataGenerator.ts:106-117 | generated potholes carry declared severities and statuses, so their counts add up to the total |
| PotholeGenerator.SeedText | backend/utils/potholeGenerator.js:4 | the hashed text is never empty: an empty source is replaced by the default address |
| PotholeGenerator.SeedOf | backend/utils/potholeGenerator.js:3-12 | the seed is at least 1: the absolute value of the hash, or 1 when the hash is 0 |
| PotholeGenerator.EmptySourceUsesDefault | backend/utils/potholeGenerator.js:4 | an empty source seeds like the default address |
| PotholeGenerator.GetSeed | backend/utils/potholeGenerator.js:3-12 | the imperative `getSeed` computes `SeedOf`, which is at least 1 |
| PotholeGenerator.SegmentIndex | backend/utils/potholeGenerator.js:47 | the segment index is always a valid position in the list of ten road segments |
| PotholeGenerator.GetSegmentLabel | backend/utils/potholeGenerator.js:46-50 | draws once, and the label names the position's segment and a block number in [1, 20] |
| PotholeGenerator.SummarizeCluster | backend/utils/potholeGenerator.js:52-59 | empty exactly for a non-array or an empty list, otherwise the two means of the coordinates, a missing, zero or NaN coordinate counting as 0 |
| PotholeGenerator.SumLatitudeBounds | backend/utils/potholeGenerator.js:56 | a sum of latitudes each within [lo, hi] lies within n times those bounds |
| PotholeGenerator.SummaryLatitudeWithinBounds | backend/utils/potholeGenerator.js:56 | the summary latitude is a mean: it lies within any bounds that every latitude lies within |
| PotholeGenerator.NextPothole | backend/utils/potholeGenerator.js:73-97 | one iteration yields a pothole with the given id, coordinates within 0.08 of the base, a listed severity and status, a depth in the range of its severity, a segment label of its position, and dates within 30 days before now and at most 5 days apart |
| PotholeGenerator.GenerateUserPotholes | backend/utils/potholeGenerator.js:61-101 | 25 potholes for the test user and 10 to 22 otherwise; ids `seed + i * 997` are distinct and each pothole is plausible |
| PotholeGenerator.MapToSummary | backend/utils/potholeGenerator.js:103-113 | the summary copies id, coordinates, severity, status and depth, takes the description as the segment label and the update time as last seen |
| PotholeGenerator.SummaryOfGenerated | backend/utils/potholeGenerator.js:103-113 | the summary of a generated pothole names its own road segment, was last seen within the generated date window, and has a listed severity and status |
| PotholeUtils.EnsureArray | frontend/src/utils/potholeUtils.ts:7-12 | arrays pass through unchanged and anything else becomes the default |
| PotholeUtils.EnsureArrayIdempotent | frontend/src/utils/potholeUtils.ts:7-12 | applying `ensureArray` to its own result changes nothing |
| PotholeUtils.ValidPotholeHasFiniteCoordinates | frontend/src/utils/potholeUtils.ts:73-89 | a value is accepted for the map exactly when it is an object with a numeric id and finite coordinates within [-90, 90] and [-180, 180] |
| PotholeUtils.CornersAreValid | frontend/src/utils/potholeUtils.ts:84-87 | the range checks are inclusive at both ends |
| PotholeController.Items | backend/controllers/pothole.controller.js:6 | a field that is not an array reads as the empty array |
| PotholeController.BuildFilterFromQuery | backend/controllers/pothole.controller.js:8-28 | severity and status filters exactly for known values; a date range exactly when one of the two dates parses, holding exactly the dates that parse |
| PotholeController.GpsTimestamp | backend/controllers/pothole.controller.js:39-51 | a timestamp survives exactly as a finite number, or as a string whose parse is finite |
| PotholeController.NormalizeGpsPoints | backend/controllers/pothole.controller.js:30-55 | keeps only points whose coordinates are not NaN, each normalised with its original position |
| PotholeController.NormalizedInOrder | backend/controllers/pothole.controller.js:30-55 | the kept points keep the input order: their positions strictly increase |
| PotholeController.NormalizedKeepsLocatable | backend/controllers/pothole.controller.js:35-55 | every point whose coordinates are not NaN is kept |
| PotholeController.NormalizeDetections | backend/controllers/pothole.controller.js:57-67 | one detection per uploaded one, in order, tagged with its position; confidence, x, y, width and height are the sent numbers, or 0 where absent; preview image and timestamp are carried over |
| PotholeController.NumberOrZero | backend/controllers/pothole.controller.js:59-64 | `Number(field ?? 0)`: an absent field reads as 0, a present one as its number |
| PotholeController.EmptyDetectionReadsAsZero | backend/controllers/pothole.controller.js:57-67 | a detection sent without numbers (or as `null`) becomes a zero-confidence, zero-sized box at the origin, still tagged with its position |
| PotholeController.DeriveSeverity | backend/controllers/pothole.controller.js:69-80 | a known fallback severity wins; otherwise "high" from 0.8, "medium" from 0.5, "low" below or for NaN; always a known severity |
| PotholeController.BackendGradesNoHigherThanServer | backend/controllers/pothole.controller.js:73-79 | without a fallback the backend's grade never exceeds the analysis server's, and differs from it exactly for confidences in [0.77, 0.8) |
| PotholeController.Usable | backend/controllers/pothole.controller.js:92 | the usable points are exactly the points with a timestamp |
| PotholeController.TargetTime | backend/controllers/pothole.controller.js:93-97 | no target time without a detection timestamp |
| PotholeController.Distances | backend/controllers/pothole.controller.js:100-102 | one distance per usable point, none of them NaN when the target time is a number |
| PotholeController.DistanceAt | backend/controllers/pothole.controller.js:102 | entry `j` is the distance of usable point `j` |
| PotholeController.NearestIsFirstSmallest | backend/controllers/pothole.controller.js:99-107 | the chosen position holds a smallest distance, and every earlier position holds a strictly larger one |
| PotholeController.NearestExtend | backend/controllers/pothole.controller.js:103-106 | one more point replaces the closest one exactly when it is strictly closer |
| PotholeController.FallbackIndex | backend/controllers/pothole.controller.js:112-117 | the proportional position, rounded and clamped, is a valid point position |
| PotholeController.ExpectedMatch | backend/controllers/pothole.controller.js:82-125 | source "none" and no point exactly when there are no GPS points; otherwise a point from the list |
| PotholeController.MatchGpsPoint | backend/controllers/pothole.controller.js:82-125 | the imperative `matchGpsPoint` computes `ExpectedMatch` |
| PotholeController.ClosestPoint | backend/controllers/pothole.controller.js:99-107 | the scan returns the first position of a smallest distance |
| PotholeController.TimestampMatchIsNearest | backend/controllers/pothole.controller.js:93-108 | with usable points and a numeric target time the match comes from a timestamp, and is the first usable point that no other is strictly closer than |
| PotholeController.FallbackIndexMonotone | backend/controllers/pothole.controller.js:112-117 | the proportional fallback keeps the order of two detections |
| PotholeController.FallbackIndexEnds | backend/controllers/pothole.controller.js:112-117 | the first detection gets the first point and the last detection the last point |
| PotholeController.OptimizeImage | backend/controllers/pothole.controller.js:128-142 | no image for a missing or empty string; the result is a prefix of the input, all of it up to 50000 characters, otherwise the header up to the first comma and 50000 characters after it |
| PotholeController.IndexOfPrefix | backend/controllers/pothole.controller.js:137 | a prefix that contains the first comma, or a text with no comma, has the same `indexOf` |
| PotholeController.OptimizeImageIdempotent | backend/controllers/pothole.controller.js:128-142 | optimising an optimised image changes nothing |
| PotholeController.TempIdInjective | backend/controllers/pothole.controller.js:245 | a temporary id `temp-${now}-${index}` determines both the clock reading and the index |
| PotholeController.TempIdsDistinct | backend/controllers/pothole.controller.js:245 | temporary ids at different positions differ, whatever the clock read for each |
| PotholeController.ShapePotholes | backend/controllers/pothole.controller.js:242-257 | one response entry per kept detection, in order, each with its own GPS match and derived severity |
| PotholeController.UploadPotholes | backend/controllers/pothole.controller.js:202-261 | 503 exactly when the database is down; 400 exactly when no detection is supplied; otherwise at most 5 entries, the given or a fresh video id, severity "none" reported as "low", the optimised preview and the number of normalised GPS points (those whose coordinates are not NaN); entry `i` carries the id built from the clock reading taken for it |
| PotholeController.UploadIdsDistinct | backend/controllers/pothole.controller.js:242-245 | the temporary ids of one response are pairwise distinct, even when the clock advances between entries |
| PotholeController.UpdatePothole | backend/controllers/pothole.controller.js:382-421 | 400 when neither a known status nor a contractor string is given; 404 for an unknown id; otherwise only those fields of that pothole change, a blank contractor becoming null |
| UploadVideo.ParseTimestamp | frontend/src/pages/UploadVideo.tsx:21-36 | finite numbers kept; a blank string or absent value gives nothing; otherwise the date reading of the trimmed text, else its number reading, and nothing exactly when both are NaN; never NaN |
| UploadVideo.FindIndex | frontend/src/pages/UploadVideo.tsx:43 | the first token containing the text, or -1 exactly when none does |
| UploadVideo.DetectColumns | frontend/src/pages/UploadVideo.tsx:42-53 | without a header the columns are 0, 1 and 2 |
| UploadVideo.HeaderDetection | frontend/src/pages/UploadVideo.tsx:42-48 | the first line is a header exactly when a token mentions "lat" and one mentions "lon"; the columns are then the first such tokens and the time column the first token mentioning "time", or -1 |
| UploadVideo.Coordinate | frontend/src/pages/UploadVideo.tsx:64-65 | a missing or empty token reads as NaN |
| UploadVideo.TokenTimestamp | frontend/src/pages/UploadVideo.tsx:74 | a missing or empty token gives no timestamp |
| UploadVideo.ParseRow | frontend/src/pages/UploadVideo.tsx:57-75 | a line with fewer than two tokens yields nothing, and every point yielded has numeric latitude and longitude |
| UploadVideo.ParseLine | frontend/src/pages/UploadVideo.tsx:57-75 | one pass of the line loop yields exactly the point the line parses to, or nothing where the loop skips it |
| UploadVideo.ScanRows | frontend/src/pages/UploadVideo.tsx:56-76 | the loop collects the points of the lines from the start index on, in line order |
| UploadVideo.ScanLines | frontend/src/pages/UploadVideo.tsx:40-78 | no lines give no points; otherwise the header test chooses the columns and the start line |
| UploadVideo.ParseDelimitedGps | frontend/src/pages/UploadVideo.tsx:38-79 | the points of the data lines of the text, in line order |
| UploadVideo.DelimitedGpsSize | frontend/src/pages/UploadVideo.tsx:39-58 | no non-blank line gives no point, and there are never more points than data lines |
| UploadVideo.PointsComeFromDataLines | frontend/src/pages/UploadVideo.tsx:53-76 | every point is what some data line after any header parses to |
| UploadVideo.PointsHaveNumericCoordinates | frontend/src/pages/UploadVideo.tsx:64-69 | no point has a NaN latitude or longitude |
| UploadVideo.LeadingSeparatorShiftsColumns | frontend/src/pages/UploadVideo.tsx:42-62 | a header starting with ',' or ';' has an empty first token while data lines have none, so its latitude and longitude positions are both at least 1 against the data tokens |
| UploadVideo.Severities | frontend/src/pages/UploadVideo.tsx:194-196 | exactly the severities present as strings |
| UploadVideo.MaxConfidence | frontend/src/pages/UploadVideo.tsx:209 | the largest confidence, reading absent ones as 0: one of them, and below none |
| UploadVideo.ClientOverall | frontend/src/pages/UploadVideo.tsx:191-218 | "none" without detections; "high" exactly when some severity is high ignoring case, else "medium" exactly when some is medium; without severities, 0.77 and 0.50 on the highest confidence; never "low" |
| UploadVideo.AnalyzeSeverity | frontend/src/pages/UploadVideo.tsx:191-223 | the server's severity when non-empty, otherwise the page's own overall severity |
| UploadVideo.AsReceived | frontend/src/pages/UploadVideo.tsx:187-188 | the server's potholes in order, each with the grade the server gave its confidence |
| UploadVideo.SeveritiesOfReceived | frontend/src/pages/UploadVideo.tsx:194-196 | the page sees exactly the server's grades, in order |
| UploadVideo.GradesIgnoringCase | frontend/src/pages/UploadVideo.tsx:200-202 | the server's grades are lower case, so the case-insensitive test is plain membership |
| UploadVideo.ClientAgreesWithServer | frontend/src/pages/UploadVideo.tsx:191-218 | on the server's graded potholes the page's severity equals the server's overall severity, except that "low" becomes "none" |
| Store.Filter | backend/controllers/assignment.controller.js:42-52 | `filter` keeps exactly the elements that pass, and is no longer than its input |
| Store.FilterAppend | backend/controllers/assignment.controller.js:42-52 | filtering works piecewise, so it keeps the relative order of what it keeps |
| Store.FilterKeepsAll | backend/controllers/assignment.controller.js:42-44 | a filter that rejects nothing returns its input unchanged |
| Store.FilterDistinct | backend/controllers/assignment.controller.js:42-44 | filtering a list without repetitions gives one without repetitions |
| Store.ElementCount | backend/controllers/contractorAssignment.controller.js:44-54 | a list has no more distinct elements than entries, and exactly as many exactly when it has no repetitions |
| Store.Surviving | backend/controllers/assignment.controller.js:42-44 | the listing keeps exactly the ids whose document passes, in order and without repetitions |
| Store.Retain | backend/controllers/assignment.controller.js:38-40 | `deleteMany` removes exactly the failing documents and leaves the others unchanged |
| Store.RetainIsListed | backend/controllers/contractorAssignment.controller.js:102-108 | after the deletion the surviving ids still name each remaining document once |
| Store.Documents | backend/controllers/assignment.controller.js:22-24 | the documents of the listed ids, in order |
| Store.DocumentsMembership | backend/controllers/assignment.controller.js:22-24 | a document is listed exactly when one of the ids names it |
| Store.Bucket | backend/controllers/assignment.controller.js:46-52 | a bucket holds exactly the listed documents that pass its condition |
| Store.Potholes.constructor | backend/controllers/contractorAssignment.controller.js:118-121 | a collection whose listing names each stored pothole once |
| Store.Potholes.Listed | backend/controllers/contractorAssignment.controller.js:118-121 | the documents in listing order, one per listed id |
| Store.Potholes.SetStatus | backend/controllers/contractorAssignment.controller.js:57-62 | `updateMany` with `$in`: every stored target gets the status, and no other document changes |
| Store.Flag | backend/controllers/admin.controller.js:31-32 | a flag read as a boolean is true exactly when it is present and true |
| Store.Users.constructor | backend/controllers/admin.controller.js:13-16 | a collection whose listing names each stored user once |
| Store.Users.SetGovernmentAuthorized | backend/controllers/govRequest.controller.js:150-154 | sets the flag of an existing user and changes nothing else; an unknown id changes nothing |
| AssignmentController.SanitizePotholePayload | backend/controllers/assignment.controller.js:9-18 | the id as a string, severity "medium" and status "open" when empty, the segment label falling back to the description, and every other field copied |
| AssignmentController.SanitizedIsStorable | backend/controllers/assignment.controller.js:9-18 | a sanitized selection passes the schema exactly when the payload names a non-empty id and any severity or status it supplies is a known one |
| AssignmentController.Assignments.constructor | backend/controllers/assignment.controller.js:22-24 | a collection of schema-valid assignments listed newest first, each once |
| AssignmentController.RemainingIsListed | backend/controllers/assignment.controller.js:29-44 | after deleting the stale assignments the surviving ids list exactly the remaining documents, none stale and all schema-valid |
| AssignmentController.BucketsPartitionActive | backend/controllers/assignment.controller.js:42-52 | `assigned` and `fixed` are disjoint, hold no stale assignment, and together hold every remaining one |
| AssignmentController.Summaries | backend/controllers/assignment.controller.js:70 | the summaries of the potholes, in order |
| AssignmentController.NotAssigned | backend/controllers/assignment.controller.js:59-71 | at most 40 summaries, each of a generated pothole that is neither fixed nor taken; when fewer than 40, every such pothole is offered |
| AssignmentController.NotAssignedSnoc | backend/controllers/assignment.controller.js:65-71 | one more generated pothole appends its summary exactly when it is free and fewer than 40 are offered, so the offer keeps generation order and holds the first 40 free potholes |
| AssignmentController.OfferedAreFree | backend/controllers/assignment.controller.js:65-69 | nothing offered is fixed or already selected |
| AssignmentController.SelectedIsNotOffered | backend/controllers/assignment.controller.js:59-69 | a generated pothole selected by a remaining assignment is never offered |
| AssignmentController.GetAssignments | backend/controllers/assignment.controller.js:20-86 | deletes exactly the stale assignments, lists the open and the fixed buckets of the rest, and offers the free generated potholes of the user: 25 for the test user, 10 to 22 otherwise, with ids counting up in steps of 997 from the user's seed, each plausible at `now` |
| AssignmentController.NewAssignment | backend/controllers/assignment.controller.js:106-116 | the stored document has the trimmed name, status ASSIGNED, no `fixedAt`, the sanitized selection in order, and the client's summary unless it is empty, else the selection's mean position |
| AssignmentController.NewAssignmentIsStored | backend/controllers/assignment.controller.js:106-116 | the new assignment passes the schema exactly when every selection names a pothole, and is never stale |
| AssignmentController.CreateAssignment | backend/controllers/assignment.controller.js:88-129 | 400 for a blank name, 400 for no selection, 500 when the schema refuses the document; otherwise exactly the new assignment is stored under a fresh id, listed first |
| AssignmentController.Transition | backend/controllers/assignment.controller.js:151-156 | the new status; FIXED stamps `fixedAt` with now and marks every selected pothole fixed; other moves change only the status |
| AssignmentController.TransitionIsStored | backend/controllers/assignment.controller.js:151-158 | a move to a known status keeps the document schema-valid |
| AssignmentController.FixedExpiresAfterTenDays | backend/controllers/assignment.controller.js:26-35 | an assignment fixed at `t` is stale at `now` exactly when `t` is more than ten days before `now`; other statuses never make it stale |
| AssignmentController.UpdateAssignmentStatus | backend/controllers/assignment.controller.js:131-171 | 400 for an unknown status, 404 for an unknown id; otherwise exactly that assignment makes the transition |
| ContractorAssignmentController.ContractorAssignments.constructor | backend/controllers/contractorAssignment.controller.js:83-90 | a collection of schema-valid contractor assignments listed newest first, each once |
| ContractorAssignmentController.ValidIds | backend/controllers/contractorAssignment.controller.js:27-35 | only 24-hex-digit ids survive, in canonical form, and every such id of the request does |
| ContractorAssignmentController.ValidIdsAppend | backend/controllers/contractorAssignment.controller.js:27-35 | validation works entry by entry: the valid ids of `a + b` are those of `a` followed by those of `b`, so request order and repetitions are kept |
| ContractorAssignmentController.ValidIdsSingle | backend/controllers/contractorAssignment.controller.js:27-35 | a single entry is kept, lower-cased, exactly when it is 24 hexadecimal digits |
| ContractorAssignmentController.RepeatedIdRefused | backend/controllers/contractorAssignment.controller.js:27-54 | two valid entries of a request naming the same id, in any letter case, leave a repetition among the non-empty valid ids, so the request is refused with 400 |
| ContractorAssignmentController.FoundAllIff | backend/controllers/contractorAssignment.controller.js:44-54 | the count of found potholes equals the number of ids exactly when every id names a stored pothole and no id repeats, so a repeated id is refused like an unknown one |
| ContractorAssignmentController.CreateContractorAssignment | backend/controllers/contractorAssignment.controller.js:8-75 | 400 for a blank name, no ids, no valid id, or an id without a distinct stored pothole; otherwise exactly the new assignment (trimmed name, the valid ids, status "assigned", no `fixedAt`) is stored under a fresh id, listed first |
| ContractorAssignmentController.RemainingIsListed | backend/controllers/contractorAssignment.controller.js:93-108 | after deleting the stale assignments the surviving ids list exactly the remaining documents, none stale and all schema-valid |
| ContractorAssignmentController.BucketsPartitionActive | backend/controllers/contractorAssignment.controller.js:106-115 | `assigned` and `fixed` are disjoint, hold no stale assignment, and together hold every remaining one |
| ContractorAssignmentController.FixedReferencesAreReferenced | backend/controllers/contractorAssignment.controller.js:123-135 | the potholes of the fixed assignments are among those of all assignments, so the second exclusion never removes anything more |
| ContractorAssignmentController.View | backend/controllers/contractorAssignment.controller.js:145-153 | the entry keeps the id, position and confidence, with severity "low" and status "open" when empty |
| ContractorAssignmentController.NotAssigned | backend/controllers/contractorAssignment.controller.js:137-153 | a listed pothole is offered exactly when it is not fixed and no remaining assignment names it |
| ContractorAssignmentController.GetContractorAssignments | backend/controllers/contractorAssignment.controller.js:78-168 | deletes exactly the stale assignments, lists the open and the fixed buckets of the rest, and offers every unassigned stored pothole |
| ContractorAssignmentController.Transition | backend/controllers/contractorAssignment.controller.js:191-199 | the new status; only "fixed" stamps `fixedAt` with now; nothing else changes |
| ContractorAssignmentController.FixedExpiresAfterTenDays | backend/controllers/contractorAssignment.controller.js:92-100 | an assignment fixed at `t` is stale at `now` exactly when `t` is more than ten days before `now`; other moves never make it stale |
| ContractorAssignmentController.FixedPotholesAreNotOffered | backend/controllers/contractorAssignment.controller.js:137-144 | a pothole with status "fixed" is never offered as unassigned, whatever assignments remain |
| ContractorAssignmentController.FixingKeepsPotholesOffLists | backend/controllers/contractorAssignment.controller.js:192-199 | once a move to "fixed" has marked an assignment's potholes fixed, no later listing offers any of them as unassigned, also after the assignment itself expired and was deleted |
| ContractorAssignmentController.UpdateContractorAssignmentStatus | backend/controllers/contractorAssignment.controller.js:171-214 | 400 for an unknown status, 404 for an unknown id; otherwise exactly that assignment makes the transition, and a move to "fixed" marks exactly its potholes fixed and no other |
| AdminController.RoleOf | backend/controllers/admin.controller.js:19-24 | "Admin" exactly for administrators, "Government" exactly for authorised non-administrators, "User" for everyone else |
| AdminController.View | backend/controllers/admin.controller.js:26-35 | the entry keeps id, name and email, carries the role, and reports absent flags as false |
| AdminController.GetAllUsers | backend/controllers/admin.controller.js:4-49 | 403 exactly when the caller is not an administrator; otherwise one entry per listed user, in listing order |
| AdminController.RoleMatchesFlags | backend/controllers/admin.controller.js:18-36 | every reported role is one of the three and agrees with the flags reported beside it |
| GovRequestController.GovRequests.constructor | backend/controllers/govRequest.controller.js:76-80 | a collection of schema-valid requests listed newest first, each once |
| GovRequestController.GovRequests.AllFor | backend/controllers/govRequest.controller.js:67-93 | 403 exactly when the caller is not an administrator; otherwise every request, newest first |
| GovRequestController.GovRequests.LatestOf | backend/controllers/govRequest.controller.js:96-122 | nothing exactly when the user has no request; otherwise a request of that user with no newer one of theirs before it |
| GovRequestController.FirstOf | backend/controllers/govRequest.controller.js:98-102 | the first request of the user in listing order, or nothing exactly when there is none |
| GovRequestController.NewRequest | backend/controllers/govRequest.controller.js:41-45 | a pending, unreviewed request of the caller with the email lower-cased and trimmed |
| GovRequestController.CreationKeepsOnePending | backend/controllers/govRequest.controller.js:18-29 | adding a pending request for a user without one keeps every user at one pending request at most |
| GovRequestController.CreateGovRequest | backend/controllers/govRequest.controller.js:6-64 | 400 for a missing email or password, for a pending request, for an authorised user; 500 for an unknown caller or a blank email; otherwise exactly the new request is stored, listed first; at most one pending request per user is kept |
| GovRequestController.ReviewRefusal | backend/controllers/govRequest.controller.js:127-149 | 403 before 404 before 400, and a review goes ahead exactly when an administrator names a pending request |
| GovRequestController.Approve | backend/controllers/govRequest.controller.js:152-154 | status "approved" with reviewer and review time; nothing else changes |
| GovRequestController.Reject | backend/controllers/govRequest.controller.js:207-212 | status "rejected" with reviewer and review time, the notes replaced only when non-empty ones are given; nothing else changes |
| GovRequestController.ReviewIsFinal | backend/controllers/govRequest.controller.js:144-149 | an approved or rejected request can never be reviewed again |
| GovRequestController.ReviewKeepsOnePending | backend/controllers/govRequest.controller.js:152-155 | a review takes the request out of the pending ones, so at most one pending request per user survives |
| GovRequestController.ApproveGovRequest | backend/controllers/govRequest.controller.js:125-176 | a refusal changes nothing; otherwise exactly that request is approved and its user, when present, becomes authorised, and nothing else changes |
| GovRequestController.RejectGovRequest | backend/controllers/govRequest.controller.js:179-234 | a refusal changes nothing; otherwise exactly that request is rejected and its user, when present, loses the authorisation, and nothing else changes |

## Left out

- HTTP, FastAPI and Express plumbing: request parsing, CORS, temporary files, the `.mp4` gate, routes and the `try`/`catch` that turns exceptions into 500. The modelled outcomes are the answers the handlers choose themselves.
- Video decoding, OpenCV drawing, JPEG and base64 encoding: a frame is opaque apart from its size, and an encoded image records which frame or region it would encode.
- The Roboflow detector: its predictions per sampled frame are an input, taken as already sorted by descending confidence; each prediction is taken to carry all five fields (confidence, x, y, width, height), so the `.get(key, 0)` default for a missing key is not modelled.
- Floating point: IoU, thresholds, `Math.round`, `Math.floor`, the generators' `nextFloat` and the cluster means are exact real arithmetic, not IEEE doubles.
- `Date.parse`, `Number(...)`, `new Date()` and `Date.now()`: these are parameters or pre-converted values. ISO date rendering and `toFixed` formatting are not modelled, so dates stay numbers and summaries stay pairs of reals.
- `parseGpx` and `parseGpsFile`: they rely on the browser's XML parser.
- `getAllPotholes` and `getPotholeStats`: they are database queries and aggregations whose only local logic is default filling. `buildFilterFromQuery`, which `getPotholeStats` uses, is modelled.
- `processPotholesInBackground`: the asynchronous, fire-and-forget insert after the upload response.
- Authentication, JWT, bcrypt, middleware and setup scripts.
- MongoDB itself: each collection is a map plus its listing order. Schema validation is the predicate the schema enforces, and `populate` of user names is not modelled.
- PotholeController.UpdatePothole: a malformed id, which makes Mongoose throw and the handler answer 500, is modelled as an id that is not found.
- AssignmentController.UpdateAssignmentStatus: a malformed id, which makes `findById` throw and the handler answer 500, is modelled as an id that is not found (404).
- ContractorAssignmentController.UpdateContractorAssignmentStatus: a malformed id, which makes `findById` throw and the handler answer 500, is modelled as an id that is not found (404).
- GovRequestController.ApproveGovRequest: a malformed id, which makes `findById` throw and the handler answer 500, is modelled as an id that is not found (404).
- GovRequestController.RejectGovRequest: a malformed id, which makes `findById` throw and the handler answer 500, is modelled as an id that is not found (404).
- ContractorAssignmentController.CreateContractorAssignment: only 24-hex-digit strings count as ObjectIds. Other forms `ObjectId.isValid` accepts, such as 12-character strings and non-string elements, are not modelled.
- ContractorAssignmentController.GetContractorAssignments: the `populate` of `potholeIds` is not modelled; the listed assignments keep their ids, where the source swaps in the pothole documents and drops ids whose pothole no longer exists.
- ContractorAssignmentController.View: the copied `createdAt` of each unassigned pothole is not part of the entry.
- Js.ToLower: lower-casing covers ASCII letters only, and character codes are those of single UTF-16 units.
- Seeding.Hash32: one step per Unicode scalar value; `charCodeAt` steps once per UTF-16 code unit, so a character outside the Basic Multilingual Plane is hashed in one step here and in two by the source. Seeding.StringHash inherits this.
- PotholeController.NormalizeGpsPoints: coordinates arrive as numbers, so the `Number(...)` conversion of other truthy values is not modelled.
- AssignmentController.GetAssignments: a missing user id or email is the empty string, which is what the source's `|| ''` substitutes.
- GovRequestController.Reject: notes are strings, so non-string notes are not modelled.
- UserDataGenerator.GenerateUserStats: requires every severity and status to be one of the declared values, as the TypeScript type guarantees. An undeclared value, which the source would count under a new key, is not modelled.
- UserDataGenerator.GenerateUserPotholes: reads the clock once per call, where the source calls `new Date()` on every iteration.
- PotholeGenerator.GenerateUserPotholes: reads the clock once per call, where the source calls `Date.now()` on every iteration.
