/**
 * Upload normalisation and pothole updates of the backend
 * (backend/controllers/pothole.controller.js): statistics filters, GPS and
 * detection normalisation, the backend's own severity rule, matching each
 * detection to a GPS point, thumbnail truncation, the upload response, and
 * the field-checked pothole update.
 *
 * Values the controller converts with `Number(...)` or `Date.parse(...)`
 * arrive already converted (`Num`); a field that is not an array is `None`,
 * which the controller reads as an empty array.
 */
module PotholeController {
  import opened Js
  import opened Store
  import SeverityClassifier

  const SEVERITIES: seq<string> := ["low", "medium", "high"]
  const STATUSES: seq<string> := ["open", "in_progress", "fixed"]

  function Items<T>(field: Option<seq<T>>): (r: seq<T>)
    ensures field.None? ==> r == []
  {
    if field.Some? then field.value else []
  }

  // ---------------------------------------------------------------------------
  // buildFilterFromQuery

  /** Statistics query; a date is the time value of `new Date(text)` (NaN for
      unparsable text), `None` when the parameter is absent or empty. */
  datatype Query = Query(severity: Option<string>, status: Option<string>, startDate: Option<Num>, endDate: Option<Num>)

  datatype DateRange = DateRange(gte: Option<Num>, lte: Option<Num>)
  datatype Filter = Filter(severity: Option<string>, status: Option<string>, createdAt: Option<DateRange>)

  predicate ValidDate(d: Option<Num>) {
    d.Some? && !d.value.NaN?
  }

  /** The filter is built field by field: only known severities and statuses
      are kept, and a date range exists when at least one bound is valid. */
  method BuildFilterFromQuery(query: Query) returns (filter: Filter)
    ensures filter.severity.Some? <==> query.severity.Some? && query.severity.value in SEVERITIES
    ensures filter.severity.Some? ==> filter.severity == query.severity
    ensures filter.status.Some? <==> query.status.Some? && query.status.value in STATUSES
    ensures filter.status.Some? ==> filter.status == query.status
    ensures filter.createdAt.Some? <==> ValidDate(query.startDate) || ValidDate(query.endDate)
    ensures filter.createdAt.Some? ==>
              && (filter.createdAt.value.gte.Some? <==> ValidDate(query.startDate))
              && (filter.createdAt.value.lte.Some? <==> ValidDate(query.endDate))
              && (filter.createdAt.value.gte.Some? ==> filter.createdAt.value.gte == query.startDate)
              && (filter.createdAt.value.lte.Some? ==> filter.createdAt.value.lte == query.endDate)
  {
    filter := Filter(None, None, None);
    if query.severity.Some? && query.severity.value != "" && query.severity.value in SEVERITIES {
      filter := filter.(severity := query.severity);
    }
    if query.status.Some? && query.status.value != "" && query.status.value in STATUSES {
      filter := filter.(status := query.status);
    }
    if ValidDate(query.startDate) || ValidDate(query.endDate) {
      filter := filter.(createdAt := Some(DateRange(None, None)));
      if ValidDate(query.startDate) {
        filter := filter.(createdAt := Some(filter.createdAt.value.(gte := query.startDate)));
      }
      if ValidDate(query.endDate) {
        filter := filter.(createdAt := Some(filter.createdAt.value.(lte := query.endDate)));
      }
    }
  }

  // ---------------------------------------------------------------------------
  // normalizeGpsPoints

  /** A raw time field: a number, a string with its `Date.parse` value, an
      absent value, or anything else. */
  datatype TimeValue = NoTime | TimeNumber(n: Num) | TimeString(text: string, parsed: Num) | TimeOther

  /** A raw GPS point with `Number(...)` already applied to its coordinates. */
  datatype RawGpsPoint = RawGpsPoint(latitude: Num, longitude: Num, time: TimeValue)

  datatype GpsPoint = GpsPoint(latitude: Num, longitude: Num, timestamp: Option<real>, index: nat)

  /** A GPS timestamp survives only as a finite number of milliseconds. */
  function GpsTimestamp(t: TimeValue): (r: Option<real>)
    ensures r.Some? <==> (t.TimeNumber? && t.n.Finite?) || (t.TimeString? && t.parsed.Finite?)
  {
    match t
    case TimeNumber(Finite(v)) => Some(v)
    case TimeString(_, Finite(v)) => Some(v)
    case _ => None
  }

  predicate Locatable(p: RawGpsPoint) {
    !p.latitude.NaN? && !p.longitude.NaN?
  }

  function NormalizePoint(p: RawGpsPoint, index: nat): GpsPoint {
    GpsPoint(p.latitude, p.longitude, GpsTimestamp(p.time), index)
  }

  /** The points whose coordinates are numbers, each with its original
      position. Infinite coordinates are kept. */
  function NormalizeGpsPoints(points: seq<RawGpsPoint>): (r: seq<GpsPoint>)
    ensures |r| <= |points|
    ensures forall k :: 0 <= k < |r| ==>
              && r[k].index < |points|
              && Locatable(points[r[k].index])
              && r[k] == NormalizePoint(points[r[k].index], r[k].index)
  {
    if points == [] then []
    else
      var n := |points| - 1;
      var init := NormalizeGpsPoints(points[..n]);
      assert forall k :: 0 <= k < |init| ==> points[..n][init[k].index] == points[init[k].index];
      if Locatable(points[n]) then init + [NormalizePoint(points[n], n)] else init
  }

  /** Positions strictly increase along `r`. */
  predicate IncreasingIndices(r: seq<GpsPoint>) {
    forall k, l :: 0 <= k < l < |r| ==> r[k].index < r[l].index
  }

  /** The kept points stay in input order. */
  lemma {:induction false} NormalizedInOrder(points: seq<RawGpsPoint>)
    ensures IncreasingIndices(NormalizeGpsPoints(points))
  {
    if points != [] {
      var n := |points| - 1;
      NormalizedInOrder(points[..n]);
      var init := NormalizeGpsPoints(points[..n]);
      var r := NormalizeGpsPoints(points);
      if Locatable(points[n]) {
        assert r == init + [NormalizePoint(points[n], n)];
        assert forall k :: 0 <= k < |init| ==> r[k] == init[k] && init[k].index < n;
      } else {
        assert r == init;
      }
    }
  }

  /** Every point with numeric coordinates is kept. */
  lemma {:induction false} NormalizedKeepsLocatable(points: seq<RawGpsPoint>, i: nat)
    requires i < |points| && Locatable(points[i])
    ensures exists k :: 0 <= k < |NormalizeGpsPoints(points)| && NormalizeGpsPoints(points)[k].index == i
  {
    var n := |points| - 1;
    var init := NormalizeGpsPoints(points[..n]);
    var r := NormalizeGpsPoints(points);
    if i < n {
      assert Locatable(points[..n][i]);
      NormalizedKeepsLocatable(points[..n], i);
      var k :| 0 <= k < |init| && init[k].index == i;
      assert r[k] == init[k];
    } else {
      assert r[|r| - 1].index == n;
    }
  }

  // ---------------------------------------------------------------------------
  // normalizeDetections

  /** A detection as uploaded. A numeric field is `None` when it is `null` or
      absent (as is every field of a `null` entry), otherwise the value
      `Number(...)` makes of what was sent. */
  datatype RawDetection = RawDetection(
    confidence: Option<Num>, previewImage: Option<string>,
    x: Option<Num>, y: Option<Num>, width: Option<Num>, height: Option<Num>, timestamp: TimeValue)

  /** `Number(field ?? 0)`: an absent field reads as 0. */
  function NumberOrZero(field: Option<Num>): (n: Num)
    ensures field.None? ==> n == Finite(0.0)
    ensures field.Some? ==> n == field.value
  {
    if field.Some? then field.value else Finite(0.0)
  }

  datatype UploadDetection = UploadDetection(
    confidence: Num, previewImage: Option<string>,
    x: Num, y: Num, width: Num, height: Num, timestamp: TimeValue, index: nat)

  /** Each uploaded detection, in order, tagged with its position. */
  function NormalizeDetections(raw: seq<RawDetection>): (r: seq<UploadDetection>)
    ensures |r| == |raw|
    ensures forall k :: 0 <= k < |r| ==>
              && r[k].index == k
              && r[k].confidence == NumberOrZero(raw[k].confidence)
              && r[k].x == NumberOrZero(raw[k].x) && r[k].y == NumberOrZero(raw[k].y)
              && r[k].width == NumberOrZero(raw[k].width) && r[k].height == NumberOrZero(raw[k].height)
              && r[k].previewImage == raw[k].previewImage && r[k].timestamp == raw[k].timestamp
  {
    seq(|raw|, k requires 0 <= k < |raw| =>
      var d := raw[k];
      UploadDetection(NumberOrZero(d.confidence), d.previewImage, NumberOrZero(d.x), NumberOrZero(d.y),
                      NumberOrZero(d.width), NumberOrZero(d.height), d.timestamp, k))
  }

  /** A detection sent without any numbers is read as a zero-confidence,
      zero-sized box at the origin. */
  lemma EmptyDetectionReadsAsZero(raw: seq<RawDetection>, k: nat)
    requires k < |raw|
    requires raw[k].confidence.None? && raw[k].x.None? && raw[k].y.None?
    requires raw[k].width.None? && raw[k].height.None?
    ensures var d := NormalizeDetections(raw)[k];
            d.confidence == d.x == d.y == d.width == d.height == Finite(0.0) && d.index == k
  {
  }

  // ---------------------------------------------------------------------------
  // deriveSeverity

  /** A valid fallback severity wins; otherwise 0.8 and 0.5 are the
      thresholds (a NaN confidence is "low"). */
  function DeriveSeverity(confidence: Num, fallback: Option<string>): (s: string)
    ensures fallback.Some? && fallback.value in SEVERITIES ==> s == fallback.value
    ensures !(fallback.Some? && fallback.value in SEVERITIES) ==>
              && (s == "high" <==> Ge(confidence, 0.8))
              && (s == "medium" <==> !Ge(confidence, 0.8) && Ge(confidence, 0.5))
              && (s == "low" <==> !Ge(confidence, 0.5))
    ensures s in SEVERITIES
  {
    if fallback.Some? && fallback.value != "" && fallback.value in SEVERITIES then fallback.value
    else if Ge(confidence, 0.8) then "high"
    else if Ge(confidence, 0.5) then "medium"
    else "low"
  }

  /** Without a fallback, the backend's 0.8 rule never grades a confidence
      above the analysis server's 0.77 rule, and the two disagree exactly on
      [0.77, 0.8). */
  lemma BackendGradesNoHigherThanServer(c: real)
    ensures SeverityClassifier.Rank(DeriveSeverity(Finite(c), None))
         <= SeverityClassifier.Rank(SeverityClassifier.ClassifySeverity(c))
    ensures DeriveSeverity(Finite(c), None) != SeverityClassifier.ClassifySeverity(c) <==> 0.77 <= c < 0.8
  {
  }

  // ---------------------------------------------------------------------------
  // matchGpsPoint

  datatype GpsMatch = GpsMatch(point: Option<GpsPoint>, source: string)

  function Usable(points: seq<GpsPoint>): (r: seq<GpsPoint>)
    ensures forall p :: p in r <==> p in points && p.timestamp.Some?
    ensures |r| <= |points|
  {
    if points == [] then []
    else (if points[0].timestamp.Some? then [points[0]] else []) + Usable(points[1..])
  }

  /** The detection's time when it is truthy: `Some` of the target time
      (possibly NaN), `None` when the field is absent, 0, NaN or empty. */
  function TargetTime(t: TimeValue): (r: Option<Num>)
    ensures t.NoTime? ==> r.None?
  {
    match t
    case NoTime => None
    case TimeNumber(n) => if n.NaN? || n == Finite(0.0) then None else Some(n)
    case TimeString(s, parsed) => if s == "" then None else Some(parsed)
    case TimeOther => Some(NaN)
  }

  /** Distances of timestamped points to a target time, in order. */
  function Distances(usable: seq<GpsPoint>, target: Num): (ds: seq<Num>)
    requires forall p :: p in usable ==> p.timestamp.Some?
    ensures |ds| == |usable|
    ensures !target.NaN? ==> forall j :: 0 <= j < |ds| ==> !ds[j].NaN?
  {
    if usable == [] then []
    else
      var n := |usable| - 1;
      assert forall p :: p in usable[..n] ==> p in usable;
      Distances(usable[..n], target) + [Distance(usable[n].timestamp.value, target)]
  }

  /** Entry `j` is the distance of point `j`. */
  lemma {:induction false} DistanceAt(usable: seq<GpsPoint>, target: Num, j: nat)
    requires forall p :: p in usable ==> p.timestamp.Some?
    requires j < |usable|
    ensures Distances(usable, target)[j] == Distance(usable[j].timestamp.value, target)
  {
    var n := |usable| - 1;
    if j < n {
      assert forall p :: p in usable[..n] ==> p in usable;
      DistanceAt(usable[..n], target, j);
    }
  }

  /** Position of the first smallest distance: no distance is smaller and
      every earlier one is larger. */
  function Nearest(ds: seq<Num>): (k: nat)
    requires ds != [] && forall j :: 0 <= j < |ds| ==> !ds[j].NaN?
    ensures k < |ds|
  {
    if |ds| == 1 then 0
    else
      var k := Nearest(ds[..|ds| - 1]);
      if Lt(ds[|ds| - 1], ds[k]) then |ds| - 1 else k
  }

  /** `Nearest` is the first position of a smallest distance. */
  lemma {:induction false} NearestIsFirstSmallest(ds: seq<Num>)
    requires ds != [] && forall j :: 0 <= j < |ds| ==> !ds[j].NaN?
    ensures forall j :: 0 <= j < |ds| ==> !Lt(ds[j], ds[Nearest(ds)])
    ensures forall j :: 0 <= j < Nearest(ds) ==> Lt(ds[Nearest(ds)], ds[j])
  {
    if |ds| > 1 {
      var init := ds[..|ds| - 1];
      NearestIsFirstSmallest(init);
      assert forall j :: 0 <= j < |init| ==> init[j] == ds[j];
    }
  }

  /** How `Nearest` moves when one more distance is considered. */
  lemma NearestExtend(ds: seq<Num>, j: nat)
    requires j < |ds| && forall i :: 0 <= i < |ds| ==> !ds[i].NaN?
    ensures j == 0 ==> Nearest(ds[..1]) == 0
    ensures j > 0 ==> Nearest(ds[..j + 1]) == if Lt(ds[j], ds[Nearest(ds[..j])]) then j else Nearest(ds[..j])
  {
    assert ds[..j + 1][..j] == ds[..j];
  }

  /** The proportional position of detection `index` among `total`
      detections, on a list of `m` GPS points, clamped into range. */
  function FallbackIndex(index: nat, total: nat, m: nat): (k: nat)
    requires m > 0
    ensures k < m
  {
    var normalized := if total > 1 then Round(index as real / (total - 1) as real * (m - 1) as real) else 0;
    var clamped := if normalized < 0 then 0 else normalized;
    if clamped > m - 1 then m - 1 else clamped
  }

  predicate TimestampPath(detection: UploadDetection, gpsPoints: seq<GpsPoint>) {
    var target := TargetTime(detection.timestamp);
    Usable(gpsPoints) != [] && target.Some? && !target.value.NaN?
  }

  /** What `matchGpsPoint` answers. */
  function ExpectedMatch(detection: UploadDetection, gpsPoints: seq<GpsPoint>, total: nat): (m: GpsMatch)
    ensures m.source == "none" <==> gpsPoints == []
    ensures m.point.Some? <==> gpsPoints != []
    ensures m.point.Some? ==> m.point.value in gpsPoints
  {
    if gpsPoints == [] then GpsMatch(None, "none")
    else if TimestampPath(detection, gpsPoints) then
      var usable := Usable(gpsPoints);
      var ds := Distances(usable, TargetTime(detection.timestamp).value);
      GpsMatch(Some(usable[Nearest(ds)]), "timestamp")
    else GpsMatch(Some(gpsPoints[FallbackIndex(detection.index, total, |gpsPoints|)]), "index")
  }

  /** `matchGpsPoint`: no match without points, the timestamp search when a
      usable point and a numeric target exist, the proportional position
      otherwise. */
  method MatchGpsPoint(detection: UploadDetection, gpsPoints: seq<GpsPoint>, totalDetections: nat) returns (m: GpsMatch)
    ensures m == ExpectedMatch(detection, gpsPoints, totalDetections)
  {
    if |gpsPoints| == 0 {
      return GpsMatch(None, "none");
    }
    var usablePoints := Usable(gpsPoints);
    var target := TargetTime(detection.timestamp);
    if |usablePoints| > 0 && target.Some? {
      var targetTime := target.value;
      if !targetTime.NaN? {
        var closest := ClosestPoint(usablePoints, targetTime);
        return GpsMatch(Some(usablePoints[closest]), "timestamp");
      }
    }
    var fallback := FallbackIndex(detection.index, totalDetections, |gpsPoints|);
    return GpsMatch(Some(gpsPoints[fallback]), "index");
  }

  /** The timestamp search of `matchGpsPoint`: start from the first usable
      point and move only to a strictly closer one. */
  method ClosestPoint(usablePoints: seq<GpsPoint>, targetTime: Num) returns (closest: nat)
    requires usablePoints != [] && !targetTime.NaN?
    requires forall p :: p in usablePoints ==> p.timestamp.Some?
    ensures closest == Nearest(Distances(usablePoints, targetTime))
  {
    ghost var ds := Distances(usablePoints, targetTime);
    closest := 0;
    var diff := Distance(usablePoints[0].timestamp.value, targetTime);
    DistanceAt(usablePoints, targetTime, 0);
    for j := 0 to |usablePoints|
      invariant closest < |usablePoints| && (j == 0 ==> closest == 0)
      invariant j > 0 ==> closest == Nearest(ds[..j])
      invariant diff == ds[closest]
    {
      NearestExtend(ds, j);
      DistanceAt(usablePoints, targetTime, j);
      var distance := Distance(usablePoints[j].timestamp.value, targetTime);
      if Lt(distance, diff) {
        diff := distance;
        closest := j;
      }
    }
    assert ds[..|usablePoints|] == ds;
  }

  /** `p` is the point at some position `k` of `usable` that no other point
      beats on distance to `target`, and every earlier point is farther. */
  ghost predicate FirstNearest(usable: seq<GpsPoint>, target: Num, p: GpsPoint)
    requires forall q :: q in usable ==> q.timestamp.Some?
  {
    exists k :: 0 <= k < |usable| && p == usable[k]
      && (forall j :: 0 <= j < |usable| ==>
            !Lt(Distance(usable[j].timestamp.value, target), Distance(usable[k].timestamp.value, target)))
      && (forall j :: 0 <= j < k ==>
            Lt(Distance(usable[k].timestamp.value, target), Distance(usable[j].timestamp.value, target)))
  }

  /** On the timestamp path the chosen point is a usable one at least as
      close as any other, and the earliest of the closest. */
  lemma TimestampMatchIsNearest(detection: UploadDetection, gpsPoints: seq<GpsPoint>, total: nat)
    requires gpsPoints != [] && TimestampPath(detection, gpsPoints)
    ensures ExpectedMatch(detection, gpsPoints, total).source == "timestamp"
    ensures ExpectedMatch(detection, gpsPoints, total).point.Some?
    ensures FirstNearest(Usable(gpsPoints), TargetTime(detection.timestamp).value,
                         ExpectedMatch(detection, gpsPoints, total).point.value)
  {
    var usable := Usable(gpsPoints);
    var target := TargetTime(detection.timestamp).value;
    var ds := Distances(usable, target);
    var k := Nearest(ds);
    NearestIsFirstSmallest(ds);
    var dk := Distance(usable[k].timestamp.value, target);
    DistanceAt(usable, target, k);
    forall j | 0 <= j < |usable| ensures !Lt(Distance(usable[j].timestamp.value, target), dk) {
      DistanceAt(usable, target, j);
    }
    forall j | 0 <= j < k ensures Lt(dk, Distance(usable[j].timestamp.value, target)) {
      DistanceAt(usable, target, j);
    }
    assert ExpectedMatch(detection, gpsPoints, total).point == Some(usable[k]);
  }

  lemma RoundMono(x: real, y: real)
    requires x <= y
    ensures Round(x) <= Round(y)
  {
    assert (x + 0.5).Floor as real <= y + 0.5;
  }

  lemma ScaleMono(i: nat, j: nat, t: real, w: real)
    requires i <= j && t > 0.0 && w >= 0.0
    ensures i as real / t * w <= j as real / t * w
  {
    assert i as real / t <= j as real / t;
  }

  /** Between two detections, the proportional fallback keeps their order. */
  lemma FallbackIndexMonotone(i: nat, j: nat, total: nat, m: nat)
    requires m > 0 && total > 1 && i <= j
    ensures FallbackIndex(i, total, m) <= FallbackIndex(j, total, m)
  {
    var t := (total - 1) as real;
    var w := (m - 1) as real;
    ScaleMono(i, j, t, w);
    RoundMono(i as real / t * w, j as real / t * w);
  }

  /** The first detection gets the first point and the last the last. */
  lemma FallbackIndexEnds(total: nat, m: nat)
    requires m > 0 && total > 1
    ensures FallbackIndex(0, total, m) == 0
    ensures FallbackIndex(total - 1, total, m) == m - 1
  {
    var t := (total - 1) as real;
    var w := (m - 1) as real;
    assert 0 as real / t * w == 0.0;
    assert t / t == 1.0;
    assert (total - 1) as real / t * w == w;
    assert Round(w) == m - 1;
  }

  // ---------------------------------------------------------------------------
  // optimizeImage

  const MAX_IMAGE_SIZE: nat := 50000

  /** Keep the data-URL header up to the first comma and at most 50000
      characters after it; short strings, and only non-empty strings,
      pass through. */
  function OptimizeImage(image: Option<string>): (r: Option<string>)
    ensures r.Some? <==> image.Some? && image.value != ""
    ensures r.Some? ==> r.value <= image.value
    ensures r.Some? && |image.value| <= MAX_IMAGE_SIZE ==> r == image
    ensures r.Some? && |image.value| > MAX_IMAGE_SIZE ==>
              |r.value| == Min(IndexOf(image.value, ',') + 1 + MAX_IMAGE_SIZE, |image.value|)
  {
    if image.None? || image.value == "" then None
    else
      var s := image.value;
      if |s| > MAX_IMAGE_SIZE then
        var headerEnd := IndexOf(s, ',') + 1;
        Some(s[..headerEnd] + s[headerEnd..Min(headerEnd + MAX_IMAGE_SIZE, |s|)])
      else Some(s)
  }

  function Min(a: int, b: int): int { if a <= b then a else b }

  lemma {:induction false} IndexOfPrefix(s: string, n: nat, c: char)
    requires n <= |s|
    requires IndexOf(s, c) == -1 || IndexOf(s, c) < n
    ensures IndexOf(s[..n], c) == IndexOf(s, c)
  {
    if n > 0 && s[0] != c {
      assert s[..n][1..] == s[1..][..n - 1];
      IndexOfPrefix(s[1..], n - 1, c);
    }
  }

  /** Optimising an optimised image changes nothing. */
  lemma OptimizeImageIdempotent(image: Option<string>)
    ensures OptimizeImage(OptimizeImage(image)) == OptimizeImage(image)
  {
    var r := OptimizeImage(image);
    if r.Some? && |image.value| > MAX_IMAGE_SIZE {
      var s := image.value;
      var h := IndexOf(s, ',') + 1;
      var n := Min(h + MAX_IMAGE_SIZE, |s|);
      var t := s[..h] + s[h..n];
      assert r.value == t;
      assert t == s[..n];
      if n > MAX_IMAGE_SIZE {
        IndexOfPrefix(s, n, ',');
        assert IndexOf(t, ',') + 1 == h;
        assert Min(h + MAX_IMAGE_SIZE, |t|) == n;
        assert t[..h] + t[h..n] == t;
      }
    }
  }


  // ---------------------------------------------------------------------------
  // uploadPotholes

  const MAX_UPLOAD: nat := 5

  datatype UploadBody = UploadBody(
    severity: Option<string>, previewImage: Option<string>,
    potholes: Option<seq<RawDetection>>, gps: Option<seq<RawGpsPoint>>,
    videoId: Option<string>)

  datatype VideoSummary = VideoSummary(videoId: string, severity: string, previewImage: Option<string>,
                                       potholeCount: nat, gpsPoints: nat)

  datatype UploadedPothole = UploadedPothole(
    id: string, videoId: string, severity: string, status: string,
    latitude: Option<Num>, longitude: Option<Num>, previewImage: Option<string>,
    confidence: Num, gpsSource: string)

  datatype UploadResponse =
    | DatabaseUnavailable                                           // 503
    | NoDetections                                                  // 400
    | Created(video: VideoSummary, potholes: seq<UploadedPothole>)  // 201

  /** `temp-${now}-${index}` */
  function TempId(now: nat, index: nat): string {
    "temp-" + (NatToString(now) + "-" + NatToString(index))
  }

  predicate AllDigits(s: string) {
    forall k :: 0 <= k < |s| ==> '0' <= s[k] <= '9'
  }

  /** In `digits + "-" + rest` the first `-` is the one after the digits. */
  lemma FirstDash(digits: string, rest: string)
    requires AllDigits(digits)
    ensures var s := digits + "-" + rest;
            s[|digits|] == '-' && forall k :: 0 <= k < |digits| ==> s[k] != '-'
  {
  }

  /** Digits, a dash and a tail split apart in one way only. */
  lemma SplitAtFirstDash(a: string, i: string, b: string, j: string)
    requires AllDigits(a) && AllDigits(b)
    requires a + "-" + i == b + "-" + j
    ensures a == b && i == j
  {
    FirstDash(a, i);
    FirstDash(b, j);
    assert |a| == |b|;
    assert a == (a + "-" + i)[..|a|];
    assert i == (a + "-" + i)[|a| + 1..];
  }

  /** A temporary id determines both the clock reading and the index. */
  lemma TempIdInjective(a: nat, i: nat, b: nat, j: nat)
    requires TempId(a, i) == TempId(b, j)
    ensures a == b && i == j
  {
    var A, B, I, J := NatToString(a), NatToString(b), NatToString(i), NatToString(j);
    var prefix := "temp-";
    assert A + "-" + I == (prefix + (A + "-" + I))[|prefix|..];
    assert B + "-" + J == (prefix + (B + "-" + J))[|prefix|..];
    SplitAtFirstDash(A, I, B, J);
    NatToStringInjective(a, b);
    NatToStringInjective(i, j);
  }

  /** Entries at different positions get different ids, whatever the clock
      read for each. */
  lemma TempIdsDistinct(a: nat, i: nat, b: nat, j: nat)
    requires i != j
    ensures TempId(a, i) != TempId(b, j)
  {
    if TempId(a, i) == TempId(b, j) {
      TempIdInjective(a, i, b, j);
    }
  }

  function UploadSeverity(body: UploadBody): string {
    if body.severity.Some? then body.severity.value else "none"
  }

  /** The severity passed on as fallback: none for "none". */
  function Fallback(severity: string): Option<string> {
    if severity == "none" then None else Some(severity)
  }

  function UploadedFrom(d: UploadDetection, videoId: string, fallback: Option<string>,
                        gps: seq<GpsPoint>, total: nat, clock: nat -> nat): UploadedPothole
  {
    Entry(d, ExpectedMatch(d, gps, total), videoId, fallback, clock)
  }

  /** The response entry of detection `d` given its GPS match `m`;
      `clock(i)` is what `Date.now()` reads while entry `i` is built. */
  function Entry(d: UploadDetection, m: GpsMatch, videoId: string, fallback: Option<string>, clock: nat -> nat): UploadedPothole {
    UploadedPothole(TempId(clock(d.index), d.index), videoId, DeriveSeverity(d.confidence, fallback), "open",
                    if m.point.Some? then Some(m.point.value.latitude) else None,
                    if m.point.Some? then Some(m.point.value.longitude) else None,
                    OptimizeImage(d.previewImage), d.confidence, m.source)
  }

  /** The response entry of each kept detection, in order. */
  method ShapePotholes(detections: seq<UploadDetection>, videoId: string, fallback: Option<string>,
                       gpsPoints: seq<GpsPoint>, clock: nat -> nat)
    returns (potholes: seq<UploadedPothole>)
    ensures |potholes| == |detections|
    ensures forall k :: 0 <= k < |detections| ==>
              potholes[k] == UploadedFrom(detections[k], videoId, fallback, gpsPoints, |detections|, clock)
  {
    potholes := [];
    ghost var shape := (d: UploadDetection) => UploadedFrom(d, videoId, fallback, gpsPoints, |detections|, clock);
    for k := 0 to |detections|
      invariant |potholes| == k
      invariant forall j :: 0 <= j < k ==> potholes[j] == shape(detections[j])
    {
      var detection := detections[k];
      var gpsMatch := MatchGpsPoint(detection, gpsPoints, |detections|);
      var entry := Entry(detection, gpsMatch, videoId, fallback, clock);
      EntryOfExpectedMatch(detection, gpsMatch, videoId, fallback, gpsPoints, |detections|, clock);
      MapSnoc(potholes, detections, shape, entry);
      potholes := potholes + [entry];
    }
  }

  /** The entry built from the match `MatchGpsPoint` returns. */
  lemma EntryOfExpectedMatch(d: UploadDetection, m: GpsMatch, videoId: string, fallback: Option<string>,
                             gpsPoints: seq<GpsPoint>, total: nat, clock: nat -> nat)
    requires m == ExpectedMatch(d, gpsPoints, total)
    ensures Entry(d, m, videoId, fallback, clock) == UploadedFrom(d, videoId, fallback, gpsPoints, total, clock)
  {
  }

  /** `uploadPotholes` up to the immediate 201 response; `freshId` stands for
      `randomUUID()` and `clock(i)` for the `Date.now()` read for entry `i`. */
  method UploadPotholes(dbConnected: bool, body: UploadBody, freshId: string, clock: nat -> nat) returns (r: UploadResponse)
    ensures r.DatabaseUnavailable? <==> !dbConnected
    ensures r.NoDetections? <==> dbConnected && Items(body.potholes) == []
    ensures r.Created? ==>
              var detections := NormalizeDetections(Items(body.potholes));
              var videoId := if body.videoId.Some? && body.videoId.value != "" then body.videoId.value else freshId;
              var gps := NormalizeGpsPoints(Items(body.gps));
              && r.video.potholeCount == |r.potholes| == Min(|detections|, MAX_UPLOAD)
              && r.video.videoId == videoId
              && r.video.severity == (if UploadSeverity(body) == "none" then "low" else UploadSeverity(body))
              && r.video.previewImage == OptimizeImage(body.previewImage)
              && r.video.gpsPoints == |gps|
              && forall k :: 0 <= k < |r.potholes| ==>
                   r.potholes[k] == UploadedFrom(detections[k], videoId, Fallback(UploadSeverity(body)),
                                                 gps, |r.potholes|, clock)
  {
    if !dbConnected {
      return DatabaseUnavailable;
    }
    var severity := UploadSeverity(body);
    var videoId := if body.videoId.Some? && body.videoId.value != "" then body.videoId.value else freshId;
    var gpsPoints := NormalizeGpsPoints(Items(body.gps));
    var all := NormalizeDetections(Items(body.potholes));
    var detections := all[..Min(|all|, MAX_UPLOAD)];
    if |detections| == 0 {
      return NoDetections;
    }
    var potholes := ShapePotholes(detections, videoId, Fallback(severity), gpsPoints, clock);
    var video := VideoSummary(videoId, if severity == "none" then "low" else severity,
                              OptimizeImage(body.previewImage), |detections|, |gpsPoints|);
    r := Created(video, potholes);
  }

  /** The temporary ids of one upload response are pairwise distinct. */
  lemma UploadIdsDistinct(body: UploadBody, videoId: string, gps: seq<GpsPoint>, clock: nat -> nat, k: nat, l: nat)
    requires var detections := NormalizeDetections(Items(body.potholes)); k < l < |detections|
    ensures var detections := NormalizeDetections(Items(body.potholes));
            var fallback := Fallback(UploadSeverity(body));
            UploadedFrom(detections[k], videoId, fallback, gps, |detections|, clock).id
              != UploadedFrom(detections[l], videoId, fallback, gps, |detections|, clock).id
  {
    TempIdsDistinct(clock(k), k, clock(l), l);
  }

  // ---------------------------------------------------------------------------
  // updatePothole

  datatype UpdateResult = NoValidFields | NotFound | Updated(pothole: Pothole)

  /** `updatePothole`: `status` is taken only from the known statuses,
      `contractor` (when the field is a string) is trimmed and an empty name
      clears the assignment. */
  method UpdatePothole(db: Potholes, id: Id, status: Option<string>, contractor: Option<string>)
    returns (r: UpdateResult)
    modifies db
    requires db.Valid()
    ensures db.Valid() && db.ids == old(db.ids)
    ensures var statusOk := status.Some? && status.value in STATUSES;
            && (r.NoValidFields? <==> !statusOk && contractor.None?)
            && (r.NotFound? <==> (statusOk || contractor.Some?) && id !in old(db.records))
            && (r.Updated? ==>
                  var before := old(db.records)[id];
                  var after := before.(status := if statusOk then status.value else before.status)
                                     .(assignedContractor :=
                                         if contractor.None? then before.assignedContractor
                                         else if Trim(contractor.value) == "" then None
                                         else Some(Trim(contractor.value)));
                  r.pothole == after && db.records == old(db.records)[id := after])
    ensures !r.Updated? ==> db.records == old(db.records)
  {
    var newStatus: Option<string> := None;
    if status.Some? && status.value != "" && status.value in STATUSES {
      newStatus := status;
    }
    var newContractor: Option<Option<string>> := None;
    if contractor.Some? {
      var trimmed := Trim(contractor.value);
      newContractor := Some(if trimmed == "" then None else Some(trimmed));
    }
    if newStatus.None? && newContractor.None? {
      return NoValidFields;
    }
    if id !in db.records {
      return NotFound;
    }
    var pothole := db.records[id];
    if newStatus.Some? {
      pothole := pothole.(status := newStatus.value);
    }
    if newContractor.Some? {
      pothole := pothole.(assignedContractor := newContractor.value);
    }
    db.records := db.records[id := pothole];
    r := Updated(pothole);
  }
}
