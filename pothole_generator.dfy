/**
 * The backend's deterministic demo potholes (backend/utils/potholeGenerator.js):
 * a seed from the user, a generator drawing every field in a fixed order,
 * road-segment labels, cluster summaries and the summary view of a pothole.
 *
 * `Date.now()` is the parameter `now` (milliseconds); ISO date rendering and
 * `toFixed` formatting are not modelled, so dates stay numbers and a
 * cluster summary stays a pair of reals.
 */
module PotholeGenerator {
  import opened Js
  import opened Seeding

  const DEFAULT_EMAIL: string := "demo@potholes.gov"
  const TEST_USER: string := "1by23cs002"

  /** The text hashed by `getSeed`: the source, or the default address when
      the source is empty. */
  function SeedText(source: string): (t: string)
    ensures t != []
  {
    if source == [] then DEFAULT_EMAIL else source
  }

  /** `getSeed(source)`: the absolute value of the hash, or 1 when that
      is 0. */
  function SeedOf(source: string): (seed: int)
    ensures seed >= 1
    ensures seed == IntAbs(Hash32(SeedText(source))) || (Hash32(SeedText(source)) == 0 && seed == 1)
  {
    var h := IntAbs(Hash32(SeedText(source)));
    if h == 0 then 1 else h
  }

  /** An empty source seeds like the default address. */
  lemma EmptySourceUsesDefault()
    ensures SeedOf("") == SeedOf(DEFAULT_EMAIL)
  {
  }

  /** `getSeed`: the hashing loop, then `Math.abs(hash) || 1`. */
  method GetSeed(source: string) returns (seed: int)
    ensures seed == SeedOf(source)
    ensures seed >= 1
  {
    var text := if source != [] then source else DEFAULT_EMAIL;
    var hash := StringHash(text);
    seed := if hash < 0 then -hash else hash;
    if seed == 0 {
      seed := 1;
    }
  }

  // ---------------------------------------------------------------------------
  // Road segments

  const ROAD_SEGMENTS: seq<string> := [
    "Outer Ring Rd", "MG Road", "Brigade Rd", "Indiranagar 100ft Rd", "Whitefield Main Rd",
    "Bannerghatta Rd", "Old Madras Rd", "Rajajinagar Main Rd", "Sarjapur Main Rd", "Airport Rd Connector"]

  /** `Math.abs(Math.round((lat + lng) * 10)) % ROAD_SEGMENTS.length`: always
      a valid index. */
  function SegmentIndex(lat: real, lng: real): (i: nat)
    ensures i < |ROAD_SEGMENTS|
  {
    IntAbs(Round((lat + lng) * 10.0)) % |ROAD_SEGMENTS|
  }

  function SegmentLabel(lat: real, lng: real, suffix: int): string {
    ROAD_SEGMENTS[SegmentIndex(lat, lng)] + " Block " + IntToString(suffix)
  }

  /** `getSegmentLabel(lat, lng, rng)`: the segment chosen by position and a
      block number drawn from [1, 20]. */
  method GetSegmentLabel(lat: real, lng: real, rng: SeededRandom) returns (segment: string)
    modifies rng
    ensures rng.seed == LcgStep(old(rng.seed))
    ensures segment == SegmentLabel(lat, lng, DrawInt(old(rng.seed), 1, 20))
    ensures old(rng.seed) >= 0 ==> rng.seed >= 0 && Labelled(segment, lat, lng)
  {
    var index := SegmentIndex(lat, lng);
    var suffix := rng.NextInt(1, 20);
    segment := ROAD_SEGMENTS[index] + " Block " + IntToString(suffix);
  }

  /** `name` names the segment of (lat, lng) and a block in [1, 20]. */
  ghost predicate Labelled(name: string, lat: real, lng: real) {
    exists suffix :: 1 <= suffix <= 20 && name == SegmentLabel(lat, lng, suffix)
  }

  // ---------------------------------------------------------------------------
  // summarizeCluster

  /** A pothole's coordinates as `p.latitude || 0` reads them: `None` for a
      missing, zero or NaN coordinate. */
  datatype ClusterPoint = ClusterPoint(latitude: Option<real>, longitude: Option<real>)

  /** The summary string: empty, or "Approx. lat, lng" for the two means. */
  datatype ClusterSummary = NoSummary | Approx(latitude: real, longitude: real)

  function OrZero(x: Option<real>): real {
    if x.Some? then x.value else 0.0
  }

  function SumLatitude(ps: seq<ClusterPoint>): real {
    if ps == [] then 0.0 else SumLatitude(ps[..|ps| - 1]) + OrZero(ps[|ps| - 1].latitude)
  }

  function SumLongitude(ps: seq<ClusterPoint>): real {
    if ps == [] then 0.0 else SumLongitude(ps[..|ps| - 1]) + OrZero(ps[|ps| - 1].longitude)
  }

  /** `summarizeCluster(potholes)`; `None` stands for a value that is not an
      array. */
  function SummarizeCluster(potholes: Option<seq<ClusterPoint>>): (r: ClusterSummary)
    ensures r.NoSummary? <==> potholes.None? || potholes.value == []
    ensures r.Approx? ==>
              && r.latitude * |potholes.value| as real == SumLatitude(potholes.value)
              && r.longitude * |potholes.value| as real == SumLongitude(potholes.value)
  {
    if potholes.None? || |potholes.value| == 0 then NoSummary
    else
      var n := |potholes.value| as real;
      Approx(SumLatitude(potholes.value) / n, SumLongitude(potholes.value) / n)
  }

  lemma {:induction false} SumLatitudeBounds(ps: seq<ClusterPoint>, lo: real, hi: real)
    requires forall k :: 0 <= k < |ps| ==> lo <= OrZero(ps[k].latitude) <= hi
    ensures lo * |ps| as real <= SumLatitude(ps) <= hi * |ps| as real
  {
    if ps != [] {
      SumLatitudeBounds(ps[..|ps| - 1], lo, hi);
    }
  }

  /** The summary's latitude is a mean: it lies within any bounds that all
      the latitudes (missing ones counting as 0) lie within. */
  lemma SummaryLatitudeWithinBounds(ps: seq<ClusterPoint>, lo: real, hi: real)
    requires ps != []
    requires forall k :: 0 <= k < |ps| ==> lo <= OrZero(ps[k].latitude) <= hi
    ensures lo <= SummarizeCluster(Some(ps)).latitude <= hi
  {
    SumLatitudeBounds(ps, lo, hi);
    var n := |ps| as real;
    var mean := SummarizeCluster(Some(ps)).latitude;
    assert mean * n == SumLatitude(ps);
  }

  // ---------------------------------------------------------------------------
  // generateUserPotholes

  const BASE_LAT: real := 12.9716
  const BASE_LNG: real := 77.5946
  const SEVERITY_LEVELS: seq<string> := ["low", "medium", "high"]
  const STATUS_LEVELS: seq<string> := ["open", "in_progress", "fixed"]
  const DAY_MS: int := 24 * 60 * 60 * 1000

  datatype GeneratedPothole = GeneratedPothole(
    id: int, latitude: real, longitude: real, severity: string, status: string,
    depth: real, description: string, createdAt: int, updatedAt: int)

  /** What every generated pothole satisfies: coordinates within 0.08 of the
      base point, a known severity and status, a depth in the band of its
      severity, a creation time within the last 30 days, an update within 5
      days after it, and a segment label for its position. */
  ghost predicate Plausible(p: GeneratedPothole, now: int) {
    && BASE_LAT - 0.08 <= p.latitude < BASE_LAT + 0.08
    && BASE_LNG - 0.08 <= p.longitude < BASE_LNG + 0.08
    && p.severity in SEVERITY_LEVELS
    && p.status in STATUS_LEVELS
    && (p.severity == "high" ==> 6.0 <= p.depth < 14.0)
    && (p.severity == "medium" ==> 3.0 <= p.depth < 8.0)
    && (p.severity == "low" ==> 0.5 <= p.depth < 4.0)
    && now - 30 * DAY_MS <= p.createdAt <= now
    && p.createdAt <= p.updatedAt <= p.createdAt + 5 * DAY_MS
    && Labelled(p.description, p.latitude, p.longitude)
  }

  predicate IsTestUser(userId: string, email: string) {
    email == TEST_USER || Contains(userId, TEST_USER)
  }

  /** `${userId}:${email || DEFAULT_EMAIL}`. */
  function SeedSource(userId: string, email: string): string {
    userId + ":" + (if email == [] then DEFAULT_EMAIL else email)
  }

  /** One iteration of the generation loop: the draws in source order
      (latitude, longitude, severity, status, depth, age, update delay,
      block number). */
  method NextPothole(rng: SeededRandom, id: int, now: int) returns (p: GeneratedPothole)
    modifies rng
    requires rng.seed >= 0
    ensures rng.seed >= 0
    ensures p.id == id && Plausible(p, now)
  {
    var dLat := rng.NextFloat(-0.08, 0.08);
    var latitude := BASE_LAT + dLat;
    var dLng := rng.NextFloat(-0.08, 0.08);
    var longitude := BASE_LNG + dLng;
    var severityIndex := rng.NextInt(0, |SEVERITY_LEVELS| - 1);
    var severity := SEVERITY_LEVELS[severityIndex];
    var statusIndex := rng.NextInt(0, |STATUS_LEVELS| - 1);
    var status := STATUS_LEVELS[statusIndex];
    var depth: real;
    if severity == "high" {
      depth := rng.NextFloat(6.0, 14.0);
    } else if severity == "medium" {
      depth := rng.NextFloat(3.0, 8.0);
    } else {
      depth := rng.NextFloat(0.5, 4.0);
    }
    var age := rng.NextInt(0, 30);
    var created := now - age * 24 * 60 * 60 * 1000;
    var delay := rng.NextInt(0, 5);
    var updated := created + delay * 24 * 60 * 60 * 1000;
    var description := GetSegmentLabel(latitude, longitude, rng);
    p := GeneratedPothole(id, latitude, longitude, severity, status, depth, description, created, updated);
  }

  /** `generateUserPotholes(userId, email)`: 25 potholes for the test user,
      otherwise a drawn count in [10, 22]; ids `getSeed(seedSource) + i * 997`,
      hence pairwise distinct. */
  method GenerateUserPotholes(userId: string, email: string, now: int) returns (potholes: seq<GeneratedPothole>)
    ensures IsTestUser(userId, email) ==> |potholes| == 25
    ensures !IsTestUser(userId, email) ==> 10 <= |potholes| <= 22
    ensures forall k :: 0 <= k < |potholes| ==>
              potholes[k].id == SeedOf(SeedSource(userId, email)) + k * 997 && Plausible(potholes[k], now)
    ensures forall i, j :: 0 <= i < j < |potholes| ==> potholes[i].id != potholes[j].id
  {
    var seedSource := userId + ":" + (if email != [] then email else DEFAULT_EMAIL);
    assert seedSource == SeedSource(userId, email);
    var initial := GetSeed(seedSource);
    var rng := new SeededRandom(initial);
    var isTestUser := email == TEST_USER || Contains(userId, TEST_USER);
    var count: int;
    if isTestUser {
      count := 25;
    } else {
      count := rng.NextInt(10, 22);
    }
    potholes := [];
    var i := 0;
    while i < count
      invariant 0 <= i <= count
      invariant |potholes| == i
      invariant rng.seed >= 0
      invariant forall k :: 0 <= k < i ==>
                  potholes[k].id == SeedOf(seedSource) + k * 997 && Plausible(potholes[k], now)
    {
      var seed := GetSeed(seedSource);
      var p := NextPothole(rng, seed + i * 997, now);
      potholes := potholes + [p];
      i := i + 1;
    }
  }

  // ---------------------------------------------------------------------------
  // mapToSummary

  /** The summary view; its `description` ("Lat x, Lng y" to three
      decimals) is formatting and is not modelled. */
  datatype PotholeSummary = PotholeSummary(
    potholeId: int, latitude: real, longitude: real, severity: string, status: string,
    segmentLabel: string, depth: real, lastSeen: int)

  /** `mapToSummary(pothole)`: the generated pothole's label becomes the
      segment label and its update time the last sighting. */
  function MapToSummary(p: GeneratedPothole): (s: PotholeSummary)
    ensures s.potholeId == p.id && s.segmentLabel == p.description && s.lastSeen == p.updatedAt
    ensures s.latitude == p.latitude && s.longitude == p.longitude && s.depth == p.depth
    ensures s.severity == p.severity && s.status == p.status
  {
    PotholeSummary(p.id, p.latitude, p.longitude, p.severity, p.status, p.description, p.depth, p.updatedAt)
  }

  /** The summary of a generated pothole names the road segment of its
      position and was last seen within 35 days before `now`. */
  lemma SummaryOfGenerated(p: GeneratedPothole, now: int)
    requires Plausible(p, now)
    ensures Labelled(MapToSummary(p).segmentLabel, MapToSummary(p).latitude, MapToSummary(p).longitude)
    ensures now - 30 * DAY_MS <= MapToSummary(p).lastSeen <= now + 5 * DAY_MS
    ensures MapToSummary(p).severity in SEVERITY_LEVELS && MapToSummary(p).status in STATUS_LEVELS
  {
  }
}
