/**
 * The frontend's per-user demo data (frontend/src/utils/userDataGenerator.ts):
 * the same hash and generator as the backend's, a different seed rule and
 * count, string ids, and the statistics fold over a list of potholes.
 *
 * `new Date()` is the parameter `now` (milliseconds); ISO date rendering is
 * not modelled.
 */
module UserDataGenerator {
  import opened Js
  import opened Seeding

  const TEST_USER: string := "1by23cs002"
  const SEVERITY_LEVELS: seq<string> := ["low", "medium", "high"]
  const STATUS_LEVELS: seq<string> := ["open", "in_progress", "fixed"]
  const BASE_LAT: real := 12.9716
  const BASE_LNG: real := 77.5946
  const DAY_MS: int := 24 * 60 * 60 * 1000

  /** `getSeed(userId)`: the absolute value of the hash, with no default
      text and no replacement of 0. */
  function UserSeed(userId: string): (seed: nat)
    ensures userId == [] ==> seed == 0
    ensures seed == Hash32(userId) || seed == -Hash32(userId)
  {
    IntAbs(Hash32(userId))
  }

  method GetSeed(userId: string) returns (seed: nat)
    ensures seed == UserSeed(userId)
  {
    var hash := StringHash(userId);
    seed := if hash < 0 then -hash else hash;
  }

  datatype DetectionMeta = DetectionMeta(x: real, y: real, width: real, height: real)

  /** A generated pothole; `gps*` are the fields of its `gpsMatch`. */
  datatype DemoPothole = DemoPothole(
    id: string, videoId: string, latitude: real, longitude: real,
    severity: string, status: string, previewImage: Option<string>, confidence: real,
    detectionMeta: DetectionMeta,
    gpsLatitude: real, gpsLongitude: real, gpsTimestamp: int, gpsSource: string,
    assignedContractor: Option<string>, createdAt: int, updatedAt: int)

  /** `${seed}-${i}`. */
  function DemoId(seed: nat, i: nat): string {
    NatToString(seed) + "-" + NatToString(i)
  }

  /** Different positions give different ids. */
  lemma DemoIdsDistinct(seed: nat, i: nat, j: nat)
    requires i != j
    ensures DemoId(seed, i) != DemoId(seed, j)
  {
    var prefix := NatToString(seed) + "-";
    if DemoId(seed, i) == DemoId(seed, j) {
      assert DemoId(seed, i)[|prefix|..] == NatToString(i);
      assert DemoId(seed, j)[|prefix|..] == NatToString(j);
      NatToStringInjective(i, j);
    }
  }

  function ContractorName(k: int): string {
    "Contractor " + IntToString(k)
  }

  /** What every generated pothole satisfies. */
  ghost predicate Plausible(p: DemoPothole, seed: nat, now: int) {
    && p.videoId == "video-" + NatToString(seed)
    && BASE_LAT - 0.1 <= p.latitude < BASE_LAT + 0.1
    && BASE_LNG - 0.1 <= p.longitude < BASE_LNG + 0.1
    && p.severity in SEVERITY_LEVELS
    && p.status in STATUS_LEVELS
    && p.previewImage.None?
    && 0.4 <= p.confidence < 0.95
    && 100.0 <= p.detectionMeta.x < 520.0 && 100.0 <= p.detectionMeta.y < 360.0
    && 40.0 <= p.detectionMeta.width < 180.0 && 40.0 <= p.detectionMeta.height < 180.0
    && p.gpsLatitude == p.latitude && p.gpsLongitude == p.longitude
    && p.gpsTimestamp == p.createdAt && p.gpsSource == "index"
    && (p.assignedContractor.Some? <==> p.status == "in_progress")
    && (p.assignedContractor.Some? ==> exists k :: 1 <= k <= 5 && p.assignedContractor.value == ContractorName(k))
    && now - 30 * DAY_MS <= p.createdAt <= now
    && p.createdAt <= p.updatedAt <= p.createdAt + 5 * DAY_MS
  }

  /** One iteration of the generation loop, with the draws in source order:
      latitude, longitude, severity, status, age, update delay, confidence,
      the four box fields, and a contractor number only for an in-progress
      pothole. */
  method NextPothole(rng: SeededRandom, seed: nat, i: nat, now: int) returns (p: DemoPothole)
    modifies rng
    requires rng.seed >= 0
    ensures rng.seed >= 0
    ensures p.id == DemoId(seed, i) && Plausible(p, seed, now)
  {
    var dLat := rng.NextFloat(-0.1, 0.1);
    var lat := BASE_LAT + dLat;
    var dLng := rng.NextFloat(-0.1, 0.1);
    var lng := BASE_LNG + dLng;
    var severityIndex := rng.NextInt(0, 2);
    var severity := SEVERITY_LEVELS[severityIndex];
    var statusIndex := rng.NextInt(0, 2);
    var status := STATUS_LEVELS[statusIndex];
    var createdAt, updatedAt := DrawDates(rng, now);
    var confidence := rng.NextFloat(0.4, 0.95);
    var meta := DrawMeta(rng);
    var contractor := DrawContractor(rng, status);
    p := DemoPothole(
      NatToString(seed) + "-" + NatToString(i), "video-" + NatToString(seed), lat, lng,
      severity, status, None, confidence, meta,
      lat, lng, createdAt, "index", contractor, createdAt, updatedAt);
  }

  /** The age draw and the update-delay draw, in days. */
  method DrawDates(rng: SeededRandom, now: int) returns (createdAt: int, updatedAt: int)
    modifies rng
    requires rng.seed >= 0
    ensures rng.seed >= 0
    ensures now - 30 * DAY_MS <= createdAt <= now
    ensures createdAt <= updatedAt <= createdAt + 5 * DAY_MS
  {
    var daysAgo := rng.NextInt(0, 30);
    createdAt := now - daysAgo * 24 * 60 * 60 * 1000;
    var delay := rng.NextInt(0, 5);
    updatedAt := createdAt + delay * 24 * 60 * 60 * 1000;
  }

  /** The four box draws: x, y, width, height. */
  method DrawMeta(rng: SeededRandom) returns (meta: DetectionMeta)
    modifies rng
    requires rng.seed >= 0
    ensures rng.seed >= 0
    ensures 100.0 <= meta.x < 520.0 && 100.0 <= meta.y < 360.0
    ensures 40.0 <= meta.width < 180.0 && 40.0 <= meta.height < 180.0
  {
    var x := rng.NextFloat(100.0, 520.0);
    var y := rng.NextFloat(100.0, 360.0);
    var width := rng.NextFloat(40.0, 180.0);
    var height := rng.NextFloat(40.0, 180.0);
    meta := DetectionMeta(x, y, width, height);
  }

  /** A contractor number is drawn only for an in-progress pothole. */
  method DrawContractor(rng: SeededRandom, status: string) returns (contractor: Option<string>)
    modifies rng
    requires rng.seed >= 0
    ensures rng.seed >= 0
    ensures contractor.Some? <==> status == "in_progress"
    ensures contractor.Some? ==> exists k :: 1 <= k <= 5 && contractor.value == ContractorName(k)
  {
    contractor := None;
    if status == "in_progress" {
      var k := rng.NextInt(1, 5);
      contractor := Some("Contractor " + IntToString(k));
      assert 1 <= k <= 5 && contractor.value == ContractorName(k);
    }
  }

  /** `ps` are plausible draws whose ids number them from 0. */
  ghost predicate Drawn(ps: seq<DemoPothole>, seed: nat, now: int) {
    forall k :: 0 <= k < |ps| ==> ps[k].id == DemoId(seed, k) && Plausible(ps[k], seed, now)
  }

  lemma DrawnSnoc(ps: seq<DemoPothole>, p: DemoPothole, seed: nat, now: int)
    requires Drawn(ps, seed, now) && p.id == DemoId(seed, |ps|) && Plausible(p, seed, now)
    ensures Drawn(ps + [p], seed, now)
  {
    var r := ps + [p];
    forall k | 0 <= k < |r|
      ensures r[k].id == DemoId(seed, k) && Plausible(r[k], seed, now)
    {
      if k < |ps| {
        assert r[k] == ps[k];
      } else {
        assert r[k] == p;
      }
    }
  }

  /** The drawing loop of `generateUserPotholes`: `count` potholes from one
      generator, the `i`-th with id `DemoId(seed, i)`. */
  method DrawPotholes(rng: SeededRandom, seed: nat, count: nat, now: int) returns (potholes: seq<DemoPothole>)
    modifies rng
    requires rng.seed >= 0
    ensures |potholes| == count && Drawn(potholes, seed, now)
  {
    potholes := [];
    for i := 0 to count
      invariant |potholes| == i
      invariant rng.seed >= 0
      invariant Drawn(potholes, seed, now)
    {
      var p := NextPothole(rng, seed, i, now);
      DrawnSnoc(potholes, p, seed, now);
      potholes := potholes + [p];
    }
  }

  predicate IsTestUser(userId: string, email: Option<string>) {
    email == Some(TEST_USER) || Contains(userId, TEST_USER)
  }

  /** `generateUserPotholes(userId, email)`: 25 potholes for the test user,
      otherwise a drawn count in [8, 18]; distinct ids, one shared video
      id. */
  method GenerateUserPotholes(userId: string, email: Option<string>, now: int) returns (potholes: seq<DemoPothole>)
    ensures IsTestUser(userId, email) ==> |potholes| == 25
    ensures !IsTestUser(userId, email) ==> 8 <= |potholes| <= 18
    ensures forall k :: 0 <= k < |potholes| ==>
              potholes[k].id == DemoId(UserSeed(userId), k) && Plausible(potholes[k], UserSeed(userId), now)
    ensures forall i, j :: 0 <= i < j < |potholes| ==> potholes[i].id != potholes[j].id
    ensures forall i, j :: 0 <= i < |potholes| && 0 <= j < |potholes| ==> potholes[i].videoId == potholes[j].videoId
  {
    var seed := GetSeed(userId);
    var rng := new SeededRandom(seed);
    var isTestUser := email == Some(TEST_USER) || Contains(userId, TEST_USER);
    var count: int;
    if isTestUser {
      count := 25;
    } else {
      count := rng.NextInt(8, 18);
    }
    potholes := DrawPotholes(rng, seed, count, now);
    forall i, j | 0 <= i < j < |potholes|
      ensures potholes[i].id != potholes[j].id
    {
      DemoIdsDistinct(seed, i, j);
    }
  }

  // ---------------------------------------------------------------------------
  // generateUserStats

  datatype SeverityCount = SeverityCount(low: nat, medium: nat, high: nat)
  datatype StatusCount = StatusCount(open: nat, inProgress: nat, fixed: nat)
  datatype DateCount = DateCount(date: string, count: nat)
  datatype PotholeStats = PotholeStats(
    severityCount: SeverityCount, statusCount: StatusCount, totalCount: nat, byDate: seq<DateCount>)

  /** How many potholes have severity `s`. */
  function CountSeverity(ps: seq<DemoPothole>, s: string): (n: nat)
    ensures n <= |ps|
  {
    if ps == [] then 0
    else CountSeverity(ps[..|ps| - 1], s) + (if ps[|ps| - 1].severity == s then 1 else 0)
  }

  /** How many potholes have status `s`. */
  function CountStatus(ps: seq<DemoPothole>, s: string): (n: nat)
    ensures n <= |ps|
  {
    if ps == [] then 0
    else CountStatus(ps[..|ps| - 1], s) + (if ps[|ps| - 1].status == s then 1 else 0)
  }

  /** The potholes the stats accept: severity and status of the declared
      `Pothole` types. */
  predicate Typed(ps: seq<DemoPothole>) {
    forall k :: 0 <= k < |ps| ==> ps[k].severity in SEVERITY_LEVELS && ps[k].status in STATUS_LEVELS
  }

  /** The three severity counts of `ps`. */
  function SeverityTally(ps: seq<DemoPothole>): SeverityCount {
    SeverityCount(CountSeverity(ps, "low"), CountSeverity(ps, "medium"), CountSeverity(ps, "high"))
  }

  /** The three status counts of `ps`. */
  function StatusTally(ps: seq<DemoPothole>): StatusCount {
    StatusCount(CountStatus(ps, "open"), CountStatus(ps, "in_progress"), CountStatus(ps, "fixed"))
  }

  /** `generateUserStats(potholes)`: the counting fold. */
  method GenerateUserStats(potholes: seq<DemoPothole>) returns (stats: PotholeStats)
    requires Typed(potholes)
    ensures stats.totalCount == |potholes| && stats.byDate == []
    ensures stats.severityCount ==
              SeverityCount(CountSeverity(potholes, "low"), CountSeverity(potholes, "medium"), CountSeverity(potholes, "high"))
    ensures stats.statusCount ==
              StatusCount(CountStatus(potholes, "open"), CountStatus(potholes, "in_progress"), CountStatus(potholes, "fixed"))
  {
    stats := PotholeStats(SeverityCount(0, 0, 0), StatusCount(0, 0, 0), |potholes|, []);
    for i := 0 to |potholes|
      invariant stats.totalCount == |potholes| && stats.byDate == []
      invariant stats.severityCount == SeverityTally(potholes[..i])
      invariant stats.statusCount == StatusTally(potholes[..i])
    {
      var p := potholes[i];
      var sc := stats.severityCount;
      if p.severity == "low" {
        sc := sc.(low := sc.low + 1);
      } else if p.severity == "medium" {
        sc := sc.(medium := sc.medium + 1);
      } else {
        sc := sc.(high := sc.high + 1);
      }
      var tc := stats.statusCount;
      if p.status == "open" {
        tc := tc.(open := tc.open + 1);
      } else if p.status == "in_progress" {
        tc := tc.(inProgress := tc.inProgress + 1);
      } else {
        tc := tc.(fixed := tc.fixed + 1);
      }
      SeverityTallyStep(potholes, i, stats.severityCount, sc);
      StatusTallyStep(potholes, i, stats.statusCount, tc);
      stats := stats.(severityCount := sc, statusCount := tc);
    }
    assert potholes[..|potholes|] == potholes;
  }

  /** One more pothole adds one to the count of its severity and nothing
      to the others. */
  lemma SeverityStep(ps: seq<DemoPothole>, i: nat, s: string)
    requires i < |ps|
    ensures CountSeverity(ps[..i + 1], s) == CountSeverity(ps[..i], s) + (if ps[i].severity == s then 1 else 0)
  {
    assert ps[..i + 1][..i] == ps[..i];
  }

  /** The same for statuses. */
  lemma StatusStep(ps: seq<DemoPothole>, i: nat, s: string)
    requires i < |ps|
    ensures CountStatus(ps[..i + 1], s) == CountStatus(ps[..i], s) + (if ps[i].status == s then 1 else 0)
  {
    assert ps[..i + 1][..i] == ps[..i];
  }

  /** The loop's severity update keeps the tally of the prefix. */
  lemma SeverityTallyStep(ps: seq<DemoPothole>, i: nat, before: SeverityCount, after: SeverityCount)
    requires i < |ps| && ps[i].severity in SEVERITY_LEVELS && before == SeverityTally(ps[..i])
    requires ps[i].severity == "low" ==> after == before.(low := before.low + 1)
    requires ps[i].severity == "medium" ==> after == before.(medium := before.medium + 1)
    requires ps[i].severity == "high" ==> after == before.(high := before.high + 1)
    ensures after == SeverityTally(ps[..i + 1])
  {
    SeverityStep(ps, i, "low");
    SeverityStep(ps, i, "medium");
    SeverityStep(ps, i, "high");
  }

  /** The loop's status update keeps the tally of the prefix. */
  lemma StatusTallyStep(ps: seq<DemoPothole>, i: nat, before: StatusCount, after: StatusCount)
    requires i < |ps| && ps[i].status in STATUS_LEVELS && before == StatusTally(ps[..i])
    requires ps[i].status == "open" ==> after == before.(open := before.open + 1)
    requires ps[i].status == "in_progress" ==> after == before.(inProgress := before.inProgress + 1)
    requires ps[i].status == "fixed" ==> after == before.(fixed := before.fixed + 1)
    ensures after == StatusTally(ps[..i + 1])
  {
    StatusStep(ps, i, "open");
    StatusStep(ps, i, "in_progress");
    StatusStep(ps, i, "fixed");
  }

  /** Every typed pothole is counted once by severity and once by status. */
  lemma {:induction false} CountsAddUp(ps: seq<DemoPothole>)
    requires Typed(ps)
    ensures CountSeverity(ps, "low") + CountSeverity(ps, "medium") + CountSeverity(ps, "high") == |ps|
    ensures CountStatus(ps, "open") + CountStatus(ps, "in_progress") + CountStatus(ps, "fixed") == |ps|
  {
    if ps != [] {
      CountsAddUp(ps[..|ps| - 1]);
    }
  }

  /** Generated potholes are typed, so their statistics add up. */
  lemma GeneratedAreTyped(ps: seq<DemoPothole>, seed: nat, now: int)
    requires forall k :: 0 <= k < |ps| ==> Plausible(ps[k], seed, now)
    ensures Typed(ps)
    ensures CountSeverity(ps, "low") + CountSeverity(ps, "medium") + CountSeverity(ps, "high") == |ps|
  {
    CountsAddUp(ps);
  }
}
